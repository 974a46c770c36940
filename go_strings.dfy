/**
 * The handful of functions from Go's `strings` package that proxy
 * selection relies on. A Go string is a sequence of bytes; here each
 * `char` of a Dafny `string` stands for one byte of it.
 */
module GoStrings {

  /** The ASCII white space that strings.TrimSpace removes: '\t', '\n',
      '\v', '\f', '\r' and ' '. */
  predicate IsSpace(c: char) {
    c == ' ' || c == '\t' || c == '\n' || c == '\r' || c == 11 as char || c == 12 as char
  }

  predicate NoSpace(s: string) {
    forall i | 0 <= i < |s| :: !IsSpace(s[i])
  }

  /** strings.ToLower restricted to ASCII: 'A'..'Z' become 'a'..'z'. */
  function LowerByte(c: char): (l: char)
    ensures 'A' <= c <= 'Z' ==> l as int == c as int + 32
    ensures !('A' <= c <= 'Z') ==> l == c
  {
    if 'A' <= c <= 'Z' then (c as int + 32) as char else c
  }

  function ToLower(s: string): (r: string)
    ensures |r| == |s|
    ensures forall i | 0 <= i < |s| :: r[i] == LowerByte(s[i])
  {
    seq(|s|, i requires 0 <= i < |s| => LowerByte(s[i]))
  }

  predicate NoUpper(s: string) {
    forall i | 0 <= i < |s| :: !('A' <= s[i] <= 'Z')
  }

  /** A string without upper-case letters is its own lower-case form. */
  lemma ToLowerNoUpper(s: string)
    requires NoUpper(s)
    ensures ToLower(s) == s
  {
  }

  /** Lower-casing works character by character, so it distributes over concatenation. */
  lemma ToLowerAppend(a: string, b: string)
    ensures ToLower(a + b) == ToLower(a) + ToLower(b)
  {
  }

  /** Drops leading white space. */
  function TrimLeft(s: string): (r: string)
    ensures |r| <= |s| && r == s[|s| - |r|..]
    ensures r == [] || !IsSpace(r[0])
    ensures forall k | 0 <= k < |s| - |r| :: IsSpace(s[k])
    decreases |s|
  {
    if |s| > 0 && IsSpace(s[0]) then TrimLeft(s[1..]) else s
  }

  /** Drops trailing white space. */
  function TrimRight(s: string): (r: string)
    ensures |r| <= |s| && r == s[..|r|]
    ensures r == [] || !IsSpace(r[|r| - 1])
    ensures forall k | |r| <= k < |s| :: IsSpace(s[k])
    decreases |s|
  {
    if |s| > 0 && IsSpace(s[|s| - 1]) then TrimRight(s[..|s| - 1]) else s
  }

  /** strings.TrimSpace over ASCII white space: the result has no white space
      at either end, and a string already without white space at its ends
      is kept as it is. */
  function TrimSpace(s: string): (r: string)
    ensures r == [] || (!IsSpace(r[0]) && !IsSpace(r[|r| - 1]))
    ensures |r| <= |s|
    ensures (s == [] || (!IsSpace(s[0]) && !IsSpace(s[|s| - 1]))) ==> r == s
  {
    var l := TrimLeft(s);
    var r := TrimRight(l);
    assert r != [] ==> r[0] == l[0] && !IsSpace(r[0]);
    assert s != [] && !IsSpace(s[0]) && !IsSpace(s[|s| - 1]) ==> l == s && r == s;
    r
  }

  /** strings.HasSuffix. */
  predicate HasSuffix(s: string, suffix: string) {
    |suffix| <= |s| && s[|s| - |suffix|..] == suffix
  }

  /** strings.LastIndex for a one-character separator: the position of the
      last occurrence of c in s, or -1 when there is none. */
  function LastIndex(s: string, c: char): (i: int)
    ensures -1 <= i < |s|
    ensures i >= 0 ==> s[i] == c
  {
    if |s| == 0 then -1
    else if s[|s| - 1] == c then |s| - 1
    else LastIndex(s[..|s| - 1], c)
  }

  /** No c comes after LastIndex(s, c); in particular it is -1 exactly when
      there is no c at all. */
  lemma {:induction false} LastIndexIsLast(s: string, c: char)
    ensures forall j | LastIndex(s, c) < j < |s| :: s[j] != c
    ensures LastIndex(s, c) == -1 <==> c !in s
  {
    if |s| > 0 && s[|s| - 1] != c {
      var t := s[..|s| - 1];
      LastIndexIsLast(t, c);
      assert forall j | 0 <= j < |t| :: t[j] == s[j];
      if c in s {
        var j :| 0 <= j < |s| && s[j] == c;
        assert t[j] == c;
      }
    }
  }

  /** The position of a c with no c after it is LastIndex(s, c). */
  lemma LastIndexUnique(s: string, c: char, i: int)
    requires -1 <= i < |s|
    requires i >= 0 ==> s[i] == c
    requires forall j | i < j < |s| :: s[j] != c
    ensures LastIndex(s, c) == i
  {
  }

  /** strings.Split with a one-character separator. As in Go, the empty
      string splits into one empty piece, and every separator starts a new
      piece. */
  function Split(s: string, sep: char): (parts: seq<string>)
    ensures |parts| >= 1
    decreases |s|
  {
    if |s| == 0 then [""]
    else
      var rest := Split(s[1..], sep);
      if s[0] == sep then [""] + rest
      else [[s[0]] + rest[0]] + rest[1..]
  }

  /** Splitting at a separator placed between a and b splits a and b apart. */
  lemma {:induction false} SplitConcat(a: string, b: string, sep: char)
    ensures Split(a + [sep] + b, sep) == Split(a, sep) + Split(b, sep)
    decreases |a|
  {
    var s := a + [sep] + b;
    if |a| == 0 {
      assert s[1..] == b;
    } else {
      assert s[1..] == a[1..] + [sep] + b;
      SplitConcat(a[1..], b, sep);
    }
  }

  /** A string without the separator is a single piece. */
  lemma {:induction false} SplitNoSeparator(s: string, sep: char)
    requires sep !in s
    ensures Split(s, sep) == [s]
    decreases |s|
  {
    if |s| > 0 {
      assert s[0] in s;
      assert forall c | c in s[1..] :: c in s;
      SplitNoSeparator(s[1..], sep);
      assert [s[0]] + s[1..] == s;
    }
  }
}
