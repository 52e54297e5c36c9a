/** The JavaScript semantics the handlers rely on: JSON values as Express hands
    them over, truthiness (`!x`), the shape of thrown values that the `catch`
    blocks inspect, and the string operations `startsWith`, `includes` and
    `split` on a one-character separator. */
module Js {
  import opened Outcomes

  /** A JSON value of a parsed request body. */
  datatype Value =
    | Str(s: string)
    | Num(n: real)
    | Bool(b: bool)
    | Null
    | Arr(items: seq<Value>)
    | Obj(fields: map<string, Value>)

  /** A request body: the JSON object Express's body parser produced. */
  type Body = map<string, Value>

  /** Property access `body.key`; `None` stands for `undefined`. */
  function Get(body: Body, key: string): Option<Value> {
    Lookup(body, key)
  }

  /** JavaScript truthiness of a JSON value: `""`, `0`, `false` and `null`
      are falsy, every array and object is truthy. */
  predicate Truthy(v: Value) {
    match v
    case Str(s) => s != ""
    case Num(n) => n != 0.0
    case Bool(b) => b
    case Null => false
    case Arr(_) => true
    case Obj(_) => true
  }

  /** Truthiness of a property that may be `undefined`. */
  predicate Present(v: Option<Value>) {
    v.Some? && Truthy(v.value)
  }

  /** Truthiness of an optional string (`undefined` and `""` are falsy). */
  predicate NonEmpty(s: Option<string>) {
    s.Some? && s.value != ""
  }

  /** A value a `throw` (or a rejected promise) delivers to a `catch` block. */
  datatype Thrown =
      /** An object for which `instanceof Error` holds; `code` is present only
          when the object carries a `code` property (Prisma's request errors
          do). A non-string code behaves like any string other than the ones
          the handlers compare against. */
    | ErrorObject(name: string, message: string, code: Option<string>)
      /** A non-null object that is not an `Error`. */
    | PlainObject(code: Option<string>)
      /** `null`, `undefined` or a primitive. */
    | Primitive

  /** `error instanceof Error` (users.ts and auth_middleware.ts `isError`). */
  predicate IsError(e: Thrown) {
    e.ErrorObject?
  }

  /** `typeof error === 'object' && error !== null && 'code' in error`
      (users.ts `isPrismaError`). */
  predicate IsPrismaError(e: Thrown) {
    !e.Primitive? && e.code.Some?
  }

  /** `s.startsWith(prefix)`. */
  predicate StartsWith(s: string, prefix: string) {
    |prefix| <= |s| && s[..|prefix|] == prefix
  }

  /** `s.includes(fragment)`. */
  predicate Includes(s: string, fragment: string)
    decreases |s|
  {
    StartsWith(s, fragment) || (|s| > 0 && Includes(s[1..], fragment))
  }

  /** A fragment occurs only in a string holding its first character. */
  lemma {:induction false} IncludesHasFirst(s: string, fragment: string)
    requires |fragment| > 0 && Includes(s, fragment)
    ensures fragment[0] in s
    decreases |s|
  {
    if !StartsWith(s, fragment) {
      IncludesHasFirst(s[1..], fragment);
    }
  }

  /** Concatenation of `parts` with `sep` between neighbours: the inverse of
      `Split`. */
  function Join(parts: seq<string>, sep: char): string
    requires |parts| >= 1
    decreases |parts|
  {
    if |parts| == 1 then parts[0] else parts[0] + [sep] + Join(parts[1..], sep)
  }

  /** `s.split(sep)` for a one-character separator: the maximal pieces between
      separators, including empty pieces around adjacent or trailing ones. */
  function Split(s: string, sep: char): (parts: seq<string>)
    ensures |parts| >= 1
    ensures Join(parts, sep) == s
    ensures forall i :: 0 <= i < |parts| ==> sep !in parts[i]
    decreases |s|
  {
    if |s| == 0 then [""]
    else
      var rest := Split(s[1..], sep);
      if s[0] == sep then
        assert s == [sep] + s[1..];
        [""] + rest
      else
        var parts := [[s[0]] + rest[0]] + rest[1..];
        assert parts[1..] == rest[1..];
        assert s == [s[0]] + s[1..];
        parts
  }

  /** The longest prefix of `s` that does not contain `c`. */
  function TakeUntil(s: string, c: char): (t: string)
    ensures t <= s
    ensures c !in t
    ensures |t| < |s| ==> s[|t|] == c
    decreases |s|
  {
    if |s| == 0 || s[0] == c then "" else [s[0]] + TakeUntil(s[1..], c)
  }

  /** A string without `c` is its own longest `c`-free prefix. */
  lemma TakeUntilAbsent(s: string, c: char)
    requires c !in s
    ensures TakeUntil(s, c) == s
  {
  }

  /** The first piece of a split is the text before the first separator. */
  lemma {:induction false} SplitHead(s: string, sep: char)
    ensures Split(s, sep)[0] == TakeUntil(s, sep)
    decreases |s|
  {
    if |s| > 0 && s[0] != sep {
      SplitHead(s[1..], sep);
    }
  }

  /** A separator-free string splits into itself alone. */
  lemma {:induction false} SplitWithoutSeparator(w: string, sep: char)
    requires sep !in w
    ensures Split(w, sep) == [w]
    decreases |w|
  {
    if |w| > 0 {
      SplitWithoutSeparator(w[1..], sep);
      assert w == [w[0]] + w[1..];
    }
  }

  /** Splitting a separator-free word followed by a separator yields that word
      and then the pieces of the remainder. */
  lemma {:induction false} SplitAfterWord(w: string, sep: char, rest: string)
    requires sep !in w
    ensures Split(w + [sep] + rest, sep) == [w] + Split(rest, sep)
    decreases |w|
  {
    var s := w + [sep] + rest;
    if |w| == 0 {
      assert s[1..] == rest;
    } else {
      assert s[1..] == w[1..] + [sep] + rest;
      SplitAfterWord(w[1..], sep, rest);
      assert w == [w[0]] + w[1..];
    }
  }

  /** Split inverts Join on separator-free pieces, so `Split` is the only
      decomposition with the properties its contract states. */
  lemma {:induction false} SplitJoin(parts: seq<string>, sep: char)
    requires |parts| >= 1
    requires forall i :: 0 <= i < |parts| ==> sep !in parts[i]
    ensures Split(Join(parts, sep), sep) == parts
    decreases |parts|
  {
    if |parts| == 1 {
      SplitWithoutSeparator(parts[0], sep);
    } else {
      SplitJoin(parts[1..], sep);
      SplitAfterWord(parts[0], sep, Join(parts[1..], sep));
      assert parts == [parts[0]] + parts[1..];
    }
  }
}
