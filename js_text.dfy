/**
 * The JavaScript string operations the service relies on: `String.prototype.split`
 * with a one-character separator, `Array.prototype.join`, and `String.prototype.trim`.
 * A JavaScript string is modelled as a sequence of Unicode scalar values.
 */
module JsText {

  /** ECMAScript WhiteSpace and LineTerminator code points, the set `trim` removes. */
  predicate IsWhitespace(c: char) {
    var n := c as int;
    n == 0x09 || n == 0x0A || n == 0x0B || n == 0x0C || n == 0x0D || n == 0x20 ||
    n == 0xA0 || n == 0x1680 || (0x2000 <= n <= 0x200A) || n == 0x2028 || n == 0x2029 ||
    n == 0x202F || n == 0x205F || n == 0x3000 || n == 0xFEFF
  }

  predicate NoWhitespace(s: string) {
    forall i :: 0 <= i < |s| ==> !IsWhitespace(s[i])
  }

  /** Leading whitespace removed: the result is a suffix of `s` and only whitespace was dropped. */
  function TrimStart(s: string): (r: string)
    ensures |r| <= |s| && r == s[|s| - |r|..]
    ensures r == [] || !IsWhitespace(r[0])
    ensures forall i :: 0 <= i < |s| - |r| ==> IsWhitespace(s[i])
  {
    if s != [] && IsWhitespace(s[0]) then TrimStart(s[1..]) else s
  }

  /** Trailing whitespace removed: the result is a prefix of `s` and only whitespace was dropped. */
  function TrimEnd(s: string): (r: string)
    ensures |r| <= |s| && r == s[..|r|]
    ensures r == [] || !IsWhitespace(r[|r| - 1])
    ensures forall i :: |r| <= i < |s| ==> IsWhitespace(s[i])
  {
    if s != [] && IsWhitespace(s[|s| - 1]) then TrimEnd(s[..|s| - 1]) else s
  }

  predicate AllWhitespace(s: string) {
    forall i :: 0 <= i < |s| ==> IsWhitespace(s[i])
  }

  /**
   * `s.trim()`: the slice of `s` that starts after the leading whitespace `trimStart`
   * drops and is followed by whitespace only; it neither starts nor ends with whitespace.
   */
  function Trim(s: string): (r: string)
    ensures r == [] || (!IsWhitespace(r[0]) && !IsWhitespace(r[|r| - 1]))
    ensures |s| - |TrimStart(s)| + |r| <= |s|
    ensures r == s[|s| - |TrimStart(s)|..|s| - |TrimStart(s)| + |r|]
    ensures AllWhitespace(s[..|s| - |TrimStart(s)|])
    ensures AllWhitespace(s[|s| - |TrimStart(s)| + |r|..])
  {
    var a := TrimStart(s);
    var r := TrimEnd(a);
    TrimShape(s, a, r);
    r
  }

  /**
   * The shape of `trimEnd(trimStart(s))`, from what `trimStart` and `trimEnd` promise:
   * `a` is a suffix of `s` after whitespace, `r` a prefix of `a` before whitespace.
   */
  lemma {:induction false} TrimShape(s: string, a: string, r: string)
    requires |a| <= |s| && a == s[|s| - |a|..] && (a == [] || !IsWhitespace(a[0]))
    requires forall k :: 0 <= k < |s| - |a| ==> IsWhitespace(s[k])
    requires |r| <= |a| && r == a[..|r|] && (r == [] || !IsWhitespace(r[|r| - 1]))
    requires forall k :: |r| <= k < |a| ==> IsWhitespace(a[k])
    ensures r == [] || (!IsWhitespace(r[0]) && !IsWhitespace(r[|r| - 1]))
    ensures |s| - |a| + |r| <= |s|
    ensures r == s[|s| - |a|..|s| - |a| + |r|]
    ensures AllWhitespace(s[..|s| - |a|])
    ensures AllWhitespace(s[|s| - |a| + |r|..])
  {
    var i := |s| - |a|;
    assert r == [] || r[0] == a[0];
    InnerSlice(s, a, r, i);
    SliceHead(s, i);
    SliceTail(s, a, r, i);
  }

  /** The characters of `s` before `i` make up a whitespace-only prefix. */
  lemma SliceHead(s: string, i: int)
    requires 0 <= i <= |s| && forall k :: 0 <= k < i ==> IsWhitespace(s[k])
    ensures AllWhitespace(s[..i])
  {
  }

  /** What `a == s[i..]` has after its prefix `r` is what `s` has after `i + |r|`. */
  lemma {:induction false} SliceTail(s: string, a: string, r: string, i: int)
    requires 0 <= i <= |s| && a == s[i..] && |r| <= |a|
    requires forall k :: |r| <= k < |a| ==> IsWhitespace(a[k])
    ensures AllWhitespace(s[i + |r|..])
  {
    assert s[i + |r|..] == a[|r|..];
  }

  /** A prefix `r` of the suffix `a == s[i..]` sits at offset `i` in `s`. */
  lemma {:induction false} InnerSlice(s: string, a: string, r: string, i: int)
    requires 0 <= i <= |s| && a == s[i..] && |r| <= |a| && r == a[..|r|]
    ensures i + |r| <= |s| && r == s[i..i + |r|]
  {
  }

  /** Whitespace before a text that does not start with whitespace is all `trimStart` drops. */
  lemma {:induction false} TrimStartSkips(a: string, t: string)
    requires AllWhitespace(a) && (t == [] || !IsWhitespace(t[0]))
    ensures TrimStart(a + t) == t
  {
    if a == [] {
      assert a + t == t;
    } else {
      assert (a + t)[0] == a[0];
      assert (a + t)[1..] == a[1..] + t;
      TrimStartSkips(a[1..], t);
    }
  }

  /** Whitespace after a text that does not end with whitespace is all `trimEnd` drops. */
  lemma {:induction false} TrimEndSkips(t: string, b: string)
    requires AllWhitespace(b) && (t == [] || !IsWhitespace(t[|t| - 1]))
    ensures TrimEnd(t + b) == t
    decreases |b|
  {
    if b == [] {
      assert t + b == t;
    } else {
      var u := t + b;
      assert u[|u| - 1] == b[|b| - 1];
      assert u[..|u| - 1] == t + b[..|b| - 1];
      TrimEndSkips(t, b[..|b| - 1]);
    }
  }

  /** Trimming removes exactly the surrounding whitespace: `trim(a + x + b) == x`. */
  lemma TrimPadded(a: string, x: string, b: string)
    requires AllWhitespace(a) && AllWhitespace(b)
    requires x == [] || (!IsWhitespace(x[0]) && !IsWhitespace(x[|x| - 1]))
    ensures Trim(a + x + b) == x
  {
    if x == [] {
      assert a + x + b == (a + b) + [];
      TrimStartSkips(a + b, []);
    } else {
      assert a + x + b == a + (x + b);
      TrimStartSkips(a, x + b);
      TrimEndSkips(x, b);
    }
  }

  /** A string that neither starts nor ends with whitespace is its own trim. */
  lemma TrimmedIsFixpoint(s: string)
    requires s == [] || (!IsWhitespace(s[0]) && !IsWhitespace(s[|s| - 1]))
    ensures Trim(s) == s
  {
  }

  /** A string without whitespace is its own trim. */
  lemma TrimNoWhitespace(s: string)
    requires NoWhitespace(s)
    ensures Trim(s) == s
  {
    TrimmedIsFixpoint(s);
  }

  lemma TrimIdempotent(s: string)
    ensures Trim(Trim(s)) == Trim(s)
  {
    TrimmedIsFixpoint(Trim(s));
  }

  /** Position of the first `c` in `s`, or `|s|` when there is none. */
  function IndexOf(s: string, c: char): (i: nat)
    ensures i <= |s|
    ensures i < |s| ==> s[i] == c
    ensures forall j :: 0 <= j < i ==> s[j] != c
  {
    if s == [] then 0 else if s[0] == c then 0 else 1 + IndexOf(s[1..], c)
  }

  /** `parts.join(sep)`; an empty array joins to "". */
  function Join(parts: seq<string>, sep: char): string {
    if |parts| == 0 then ""
    else if |parts| == 1 then parts[0]
    else parts[0] + [sep] + Join(parts[1..], sep)
  }

  /**
   * `s.split(sep)`: the maximal `sep`-free pieces of `s`, in order. There is always at
   * least one piece ("" splits into [""]), and joining the pieces gives `s` back.
   */
  function Split(s: string, sep: char): (parts: seq<string>)
    ensures |parts| >= 1
    ensures forall i :: 0 <= i < |parts| ==> sep !in parts[i]
    ensures Join(parts, sep) == s
    decreases |s|
  {
    var i := IndexOf(s, sep);
    if i == |s| then [s]
    else
      var rest := Split(s[i + 1..], sep);
      assert s == s[..i] + [sep] + s[i + 1..];
      assert ([s[..i]] + rest)[1..] == rest;
      [s[..i]] + rest
  }

  lemma IndexOfPrefix(a: string, c: char, b: string)
    requires c !in a
    ensures IndexOf(a + [c] + b, c) == |a|
    ensures IndexOf(a, c) == |a|
  {
    var s := a + [c] + b;
    assert s[|a|] == c;
  }

  /** A `sep`-free text is a single piece. */
  lemma SplitSingle(a: string, sep: char)
    requires sep !in a
    ensures Split(a, sep) == [a]
  {
    IndexOfPrefix(a, sep, "");
  }

  /** Splitting `a + sep + b` with `a` free of `sep` peels `a` off as the first piece. */
  lemma SplitStep(a: string, sep: char, b: string)
    requires sep !in a
    ensures Split(a + [sep] + b, sep) == [a] + Split(b, sep)
  {
    var s := a + [sep] + b;
    IndexOfPrefix(a, sep, b);
    assert s[..|a|] == a;
    assert s[|a| + 1..] == b;
  }

  /** Splitting a join of `sep`-free pieces gives the pieces back. */
  lemma {:induction false} SplitJoin(parts: seq<string>, sep: char)
    requires |parts| >= 1
    requires forall i :: 0 <= i < |parts| ==> sep !in parts[i]
    ensures Split(Join(parts, sep), sep) == parts
  {
    if |parts| == 1 {
      SplitSingle(parts[0], sep);
    } else {
      assert Join(parts, sep) == parts[0] + [sep] + Join(parts[1..], sep);
      SplitStep(parts[0], sep, Join(parts[1..], sep));
      SplitJoin(parts[1..], sep);
      assert parts == [parts[0]] + parts[1..];
    }
  }

  /** The three-field case used by the token and key formats: `a|b|c` splits into [a, b, c]. */
  lemma SplitThree(a: string, b: string, c: string, sep: char)
    requires sep !in a && sep !in b && sep !in c
    ensures Split(a + [sep] + b + [sep] + c, sep) == [a, b, c]
  {
    assert Join([a, b, c], sep) == a + [sep] + b + [sep] + c by {
      assert [a, b, c][1..] == [b, c];
      assert [b, c][1..] == [c];
      assert Join([c], sep) == c;
      assert Join([b, c], sep) == b + [sep] + c;
      assert Join([a, b, c], sep) == a + [sep] + (b + [sep] + c);
      assert a + [sep] + (b + [sep] + c) == a + [sep] + b + [sep] + c;
    }
    SplitJoin([a, b, c], sep);
  }
}
