/**
 * The JavaScript string operations the chunker and the upload filter rely on:
 * `trim`, `split('\n\n')`, joining with a blank line, `includes` and `endsWith`.
 * A JavaScript string is modelled as a `seq<char>` whose `.length` is its number of characters.
 */
module Text {

  /** The separator between paragraphs: a blank line. */
  const Blank: string := "\n\n"

  /** The characters `String.prototype.trim` removes: ECMAScript WhiteSpace and LineTerminator. */
  const Whitespace: set<char> :=
    {'\t', '\n', '\U{000B}', '\U{000C}', '\r', ' ', '\U{00A0}', '\U{1680}',
     '\U{2000}', '\U{2001}', '\U{2002}', '\U{2003}', '\U{2004}', '\U{2005}', '\U{2006}',
     '\U{2007}', '\U{2008}', '\U{2009}', '\U{200A}', '\U{2028}', '\U{2029}', '\U{202F}',
     '\U{205F}', '\U{3000}', '\U{FEFF}'}

  predicate IsWhitespace(c: char) {
    c in Whitespace
  }

  /** Non-empty and neither starting nor ending with whitespace. */
  predicate Clean(s: string) {
    s != [] && !IsWhitespace(s[0]) && !IsWhitespace(s[|s| - 1])
  }

  /** `r` is what is left of `s` after dropping whitespace from its front. */
  predicate DropsLeading(s: string, r: string) {
    |r| <= |s| && r == s[|s| - |r|..] && forall k :: 0 <= k < |s| - |r| ==> IsWhitespace(s[k])
  }

  /** `r` is what is left of `s` after dropping whitespace from its back. */
  predicate DropsTrailing(s: string, r: string) {
    |r| <= |s| && r == s[..|r|] && forall k :: |r| <= k < |s| ==> IsWhitespace(s[k])
  }

  /** `r` is the slice of `s` from `i`, with only whitespace before and after it. */
  predicate TrimmedSlice(s: string, i: int, r: string) {
    0 <= i && i + |r| <= |s| && r == s[i..i + |r|]
    && (forall k :: 0 <= k < i ==> IsWhitespace(s[k]))
    && (forall k :: i + |r| <= k < |s| ==> IsWhitespace(s[k]))
  }

  /** Drops leading whitespace: the result is the suffix of `s` after every leading whitespace character. */
  function TrimStart(s: string): (r: string)
    ensures DropsLeading(s, r)
    ensures r == [] || !IsWhitespace(r[0])
  {
    if s != [] && IsWhitespace(s[0]) then TrimStart(s[1..]) else s
  }

  /** Drops trailing whitespace: the result is the prefix of `s` before every trailing whitespace character. */
  function TrimEnd(s: string): (r: string)
    ensures DropsTrailing(s, r)
    ensures r == [] || !IsWhitespace(r[|r| - 1])
  {
    if s != [] && IsWhitespace(s[|s| - 1]) then TrimEnd(s[..|s| - 1]) else s
  }

  /** `s.trim()`: the slice of `s` between its leading and its trailing whitespace. */
  function Trim(s: string): (r: string)
    ensures |r| <= |s|
    ensures r == [] || Clean(r)
  {
    var t := TrimStart(s);
    var r := TrimEnd(t);
    assert r != [] ==> r[0] == t[0];
    r
  }

  /** What `Trim` removes: whitespace before the slice it keeps and whitespace after it. */
  lemma TrimSlice(s: string)
    ensures TrimmedSlice(s, |s| - |TrimStart(s)|, Trim(s))
  {
    var t := TrimStart(s);
    var r := TrimEnd(t);
    assert Trim(s) == r;
    SuffixThenPrefix(s, t, r);
  }

  /** Dropping whitespace from the front and then from the back leaves a trimmed slice. */
  lemma SuffixThenPrefix(s: string, t: string, r: string)
    requires DropsLeading(s, t) && DropsTrailing(t, r)
    ensures TrimmedSlice(s, |s| - |t|, r)
  {
    var i := |s| - |t|;
    forall k | i + |r| <= k < |s| ensures IsWhitespace(s[k]) {
      assert t[k - i] == s[k];
    }
  }

  /** A string that is empty or clean is its own trim. */
  lemma TrimClean(s: string)
    requires s == [] || Clean(s)
    ensures Trim(s) == s
  {
  }

  /** Trimming twice is trimming once. */
  lemma TrimIdempotent(s: string)
    ensures Trim(Trim(s)) == Trim(s)
  {
    TrimClean(Trim(s));
  }

  /** `s.split('\n\n')`: the pieces between the left-to-right, non-overlapping occurrences of a blank line. */
  function Split(s: string): (r: seq<string>)
    ensures |r| >= 1
    decreases |s|
  {
    if s == [] then [""]
    else if |s| >= 2 && s[0] == '\n' && s[1] == '\n' then [""] + Split(s[2..])
    else
      var rest := Split(s[1..]);
      [[s[0]] + rest[0]] + rest[1..]
  }

  /** Joins pieces with a blank line between neighbours. */
  function Join(ps: seq<string>): string
  {
    if |ps| == 0 then ""
    else if |ps| == 1 then ps[0]
    else ps[0] + Blank + Join(ps[1..])
  }

  /** Joining a piece in front of non-empty pieces puts a blank line after it. */
  lemma JoinCons(x: string, ps: seq<string>)
    requires ps != []
    ensures Join([x] + ps) == x + Blank + Join(ps)
  {
    assert ([x] + ps)[1..] == ps;
  }

  /** No blank line occurs in `s`. */
  predicate NoBlank(s: string) {
    forall i :: 0 <= i < |s| - 1 ==> !(s[i] == '\n' && s[i + 1] == '\n')
  }

  /** Splitting and joining again gives back the text. */
  lemma {:induction false} JoinSplit(s: string)
    ensures Join(Split(s)) == s
    decreases |s|
  {
    if s == [] {
    } else if |s| >= 2 && s[0] == '\n' && s[1] == '\n' {
      JoinSplit(s[2..]);
      JoinSplitBlank(s);
    } else {
      JoinSplit(s[1..]);
      JoinSplitChar(s);
    }
  }

  /** The step of `JoinSplit` for a text that starts with a blank line. */
  lemma JoinSplitBlank(s: string)
    requires |s| >= 2 && s[0] == '\n' && s[1] == '\n'
    requires Join(Split(s[2..])) == s[2..]
    ensures Join(Split(s)) == s
  {
    JoinCons("", Split(s[2..]));
    assert s == Blank + s[2..];
  }

  /** The step of `JoinSplit` for a text that does not start with a blank line. */
  lemma JoinSplitChar(s: string)
    requires s != [] && !(|s| >= 2 && s[0] == '\n' && s[1] == '\n')
    requires Join(Split(s[1..])) == s[1..]
    ensures Join(Split(s)) == s
  {
    var rest := Split(s[1..]);
    assert Split(s) == [[s[0]] + rest[0]] + rest[1..];
    JoinPrepend(s[0], rest);
    assert s == [s[0]] + s[1..];
  }

  /** Putting a character in front of the first piece puts it in front of the joined text. */
  lemma JoinPrepend(c: char, ps: seq<string>)
    requires ps != []
    ensures Join([[c] + ps[0]] + ps[1..]) == [c] + Join(ps)
  {
    var head := [c] + ps[0];
    if |ps| == 1 {
      assert [head] + ps[1..] == [head];
    } else {
      var tail := Join(ps[1..]);
      JoinCons(head, ps[1..]);
      JoinCons(ps[0], ps[1..]);
      assert [ps[0]] + ps[1..] == ps;
      Associative([c], ps[0], Blank);
      Associative([c], ps[0] + Blank, tail);
    }
  }

  /** Sequence concatenation is associative. */
  lemma Associative<T>(a: seq<T>, b: seq<T>, c: seq<T>)
    ensures a + b + c == a + (b + c)
  {
  }

  /** A text without a blank line is a single paragraph. */
  lemma {:induction false} SplitNoBlank(s: string)
    requires NoBlank(s)
    ensures Split(s) == [s]
    decreases |s|
  {
    if s != [] {
      assert NoBlank(s[1..]) by {
        forall i | 0 <= i < |s[1..]| - 1 ensures !(s[1..][i] == '\n' && s[1..][i + 1] == '\n') {
          assert s[1..][i] == s[i + 1] && s[1..][i + 1] == s[i + 2];
        }
      }
      SplitNoBlank(s[1..]);
      assert [s[0]] + s[1..] == s;
    }
  }

  /** A first paragraph without a blank line and not ending in a line feed splits off whole. */
  lemma {:induction false} SplitAfter(a: string, b: string)
    requires NoBlank(a) && (a == [] || a[|a| - 1] != '\n')
    ensures Split(a + Blank + b) == [a] + Split(b)
    decreases |a|
  {
    var s := a + Blank + b;
    if a == [] {
      assert s == Blank + b;
      assert s[2..] == b;
    } else {
      var a' := a[1..];
      assert NoBlank(a') by {
        forall i | 0 <= i < |a'| - 1 ensures !(a'[i] == '\n' && a'[i + 1] == '\n') {
          assert a'[i] == a[i + 1] && a'[i + 1] == a[i + 2];
        }
      }
      assert s[1..] == a' + Blank + b;
      SplitAfter(a', b);
      if |a| == 1 {
        assert s[0] == a[0] && s[1] == '\n';
      } else {
        assert s[0] == a[0] && s[1] == a[1];
      }
      assert !(s[0] == '\n' && s[1] == '\n');
      assert [s[0]] + a' == a;
    }
  }

  /** `t` occurs in `s` starting at index `i`. */
  predicate OccursAt(s: string, t: string, i: int) {
    0 <= i && i + |t| <= |s| && s[i..i + |t|] == t
  }

  /** `s.includes(t)`. */
  predicate Contains(s: string, t: string) {
    exists i :: 0 <= i <= |s| - |t| && OccursAt(s, t, i)
  }

  /** `s.endsWith(t)`. */
  predicate EndsWith(s: string, t: string) {
    |t| <= |s| && s[|s| - |t|..] == t
  }
}
