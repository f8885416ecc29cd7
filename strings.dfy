/**
 * The JavaScript string built-ins the pages rely on, on `seq<char>`:
 * `trim`, `split(",")`, `join`, `toLowerCase` (ASCII letters only),
 * `includes`, and the order of ISO `YYYY-MM-DD` date strings.
 */
module Strings {

  /** The characters `String.prototype.trim` strips: WhiteSpace and LineTerminator. */
  const Whitespace: seq<char> := [
    ' ', '\t', '\n', '\r', '\U{000B}', '\U{000C}', '\U{00A0}', '\U{FEFF}', '\U{1680}',
    '\U{2000}', '\U{2001}', '\U{2002}', '\U{2003}', '\U{2004}', '\U{2005}', '\U{2006}',
    '\U{2007}', '\U{2008}', '\U{2009}', '\U{200A}', '\U{2028}', '\U{2029}', '\U{202F}',
    '\U{205F}', '\U{3000}'
  ]

  predicate IsWhitespace(c: char) {
    c in Whitespace
  }

  /** No whitespace character is an ASCII letter. */
  lemma WhitespaceIsNoLetter(c: char)
    requires IsWhitespace(c)
    ensures !('A' <= c <= 'Z') && !('a' <= c <= 'z')
  {
  }

  predicate AllWhitespace(s: string) {
    forall i :: 0 <= i < |s| ==> IsWhitespace(s[i])
  }

  /** No whitespace at either end (what `trim` leaves behind). */
  predicate IsTrimmed(s: string) {
    s == [] || (!IsWhitespace(s[0]) && !IsWhitespace(s[|s| - 1]))
  }

  /** Drops the leading whitespace and nothing else. */
  function TrimStart(s: string): (r: string)
    ensures |r| <= |s| && r == s[|s| - |r|..]
    ensures AllWhitespace(s[..|s| - |r|])
    ensures r == [] || !IsWhitespace(r[0])
  {
    if |s| > 0 && IsWhitespace(s[0]) then
      var r := TrimStart(s[1..]);
      var k := |s| - |r|;
      assert forall i :: 1 <= i < k ==> s[i] == s[1..][..k - 1][i - 1];
      assert forall i :: 0 <= i < k ==> IsWhitespace(s[i]);
      r
    else s
  }

  /** Drops the trailing whitespace and nothing else. */
  function TrimEnd(s: string): (r: string)
    ensures |r| <= |s| && r == s[..|r|]
    ensures AllWhitespace(s[|r|..])
    ensures r == [] || !IsWhitespace(r[|r| - 1])
  {
    if |s| > 0 && IsWhitespace(s[|s| - 1]) then
      var init := s[..|s| - 1];
      var r := TrimEnd(init);
      assert forall i :: |r| <= i < |s| - 1 ==> s[i] == init[|r|..][i - |r|];
      assert forall i :: |r| <= i < |s| ==> IsWhitespace(s[i]);
      r
    else s
  }

  /**
   * `s.trim()`: the middle of `s` between its leading and its trailing
   * whitespace, with no whitespace left at either end.
   */
  function Trim(s: string): (r: string)
    ensures |r| <= |s| && IsTrimmed(r)
    ensures exists i, j :: (0 <= i <= j <= |s| && r == s[i..j] && AllWhitespace(s[..i]) && AllWhitespace(s[j..]))
  {
    var a := TrimStart(s);
    var r := TrimEnd(a);
    var i := |s| - |a|;
    assert r == s[i..i + |r|] && s[i + |r|..] == a[|r|..];
    r
  }

  /** Trimming introduces no character. */
  lemma TrimKeepsCharacters(s: string, c: char)
    requires c !in s
    ensures c !in Trim(s)
  {
    var a := TrimStart(s);
    var r := Trim(s);
    forall i | 0 <= i < |r|
      ensures r[i] != c
    {
      assert r[i] == a[i] == s[|s| - |a| + i];
    }
  }

  /** A string that is already trimmed is returned as it is. */
  lemma TrimTrimmed(s: string)
    requires IsTrimmed(s)
    ensures Trim(s) == s
  {
  }

  lemma {:induction false} TrimStartBlank(s: string)
    ensures TrimStart(s) == [] <==> AllWhitespace(s)
  {
    if |s| > 0 {
      TrimStartBlank(s[1..]);
      assert AllWhitespace(s) <==> IsWhitespace(s[0]) && AllWhitespace(s[1..]) by {
        assert forall i :: 1 <= i < |s| ==> s[i] == s[1..][i - 1];
      }
    }
  }

  lemma {:induction false} TrimEndBlank(s: string)
    ensures TrimEnd(s) == [] <==> AllWhitespace(s)
  {
    if |s| > 0 {
      var init := s[..|s| - 1];
      TrimEndBlank(init);
      assert AllWhitespace(s) <==> AllWhitespace(init) && IsWhitespace(s[|s| - 1]) by {
        assert forall i :: 0 <= i < |s| - 1 ==> s[i] == init[i];
      }
    }
  }

  /** Trimming leaves nothing exactly when the string is blank. */
  lemma TrimBlank(s: string)
    ensures Trim(s) == [] <==> AllWhitespace(s)
  {
    var a := TrimStart(s);
    TrimStartBlank(s);
    TrimEndBlank(a);
    if a != [] {
      assert !IsWhitespace(a[0]);
    }
  }

  /** Whitespace in front never survives a trim. */
  lemma TrimLeadingWhitespace(c: char, s: string)
    requires IsWhitespace(c)
    ensures Trim([c] + s) == Trim(s)
  {
    assert ([c] + s)[1..] == s;
  }

  /** `s.split(",")`: the pieces between commas; the empty string gives `[""]`. */
  function Split(s: string): (r: seq<string>)
    ensures |r| >= 1
    ensures forall p :: p in r ==> ',' !in p
  {
    if s == [] then [""]
    else
      var rest := Split(s[1..]);
      if s[0] == ',' then [""] + rest
      else [[s[0]] + rest[0]] + rest[1..]
  }

  /** One step of `split`: a comma starts a new piece, anything else extends the first one. */
  lemma SplitCons(c: char, t: string)
    ensures c == ',' ==> Split([c] + t) == [""] + Split(t)
    ensures c != ',' ==> Split([c] + t) == [[c] + Split(t)[0]] + Split(t)[1..]
  {
    assert ([c] + t)[1..] == t;
  }

  /**
   * `ts.join(sep)`: the pieces with `sep` between them, starting with the
   * first; an empty list gives the empty string.
   * JoinSplit and SplitJoin show it undoes, and is undone by, `split`.
   */
  function Join(ts: seq<string>, sep: string): (r: string)
    ensures ts == [] ==> r == ""
    ensures ts != [] ==> ts[0] <= r
  {
    if |ts| == 0 then ""
    else if |ts| == 1 then ts[0]
    else ts[0] + sep + Join(ts[1..], sep)
  }

  /** Joining with `", "` is joining with `","` and a space in front of every later piece. */
  lemma JoinCommaSpace(ts: seq<string>)
    requires |ts| > 1
    ensures Join(ts, ", ") == ts[0] + "," + ([' '] + Join(ts[1..], ", "))
  {
    var a, b := ts[0], Join(ts[1..], ", ");
    assert a + ", " + b == a + "," + ([' '] + b);
  }

  /** Joining the pieces with the separator they were split on restores the input. */
  lemma {:induction false} JoinSplit(s: string)
    ensures Join(Split(s), ",") == s
  {
    if s != [] {
      JoinSplit(s[1..]);
      var rest := Split(s[1..]);
      if s[0] != ',' && |rest| > 1 {
        assert rest == [rest[0]] + rest[1..];
      }
    }
  }

  /** A comma-free prefix is glued to the first piece of the rest. */
  lemma {:induction false} SplitCommaFreePrefix(a: string, b: string)
    requires ',' !in a
    ensures Split(a + b) == [a + Split(b)[0]] + Split(b)[1..]
  {
    if a != [] {
      assert (a + b)[1..] == a[1..] + b;
      SplitCommaFreePrefix(a[1..], b);
      assert [a[0]] + (a[1..] + Split(b)[0]) == a + Split(b)[0];
    } else {
      var r := Split(b);
      assert a + b == b && a + r[0] == r[0];
      assert r == [r[0]] + r[1..];
    }
  }

  /** Splitting a comma-joined list of comma-free strings gives the list back. */
  lemma {:induction false} SplitJoin(ts: seq<string>)
    requires |ts| >= 1
    requires forall t :: t in ts ==> ',' !in t
    ensures Split(Join(ts, ",")) == ts
  {
    if |ts| == 1 {
      SplitCommaFreePrefix(ts[0], "");
      assert ts[0] + "" == ts[0];
    } else {
      var tail := Join(ts[1..], ",");
      SplitJoin(ts[1..]);
      assert Join(ts, ",") == ts[0] + ("," + tail);
      SplitCommaFreePrefix(ts[0], "," + tail);
      assert ("," + tail)[1..] == tail;
      assert Split("," + tail) == [""] + ts[1..];
      assert ts[0] + "" == ts[0];
      assert ts == [ts[0]] + ts[1..];
    }
  }

  lemma {:induction false} JoinAppend(p: seq<string>, q: seq<string>, sep: string)
    requires |p| >= 1 && |q| >= 1
    ensures Join(p + q, sep) == Join(p, sep) + sep + Join(q, sep)
  {
    if |p| == 1 {
      assert (p + q)[1..] == q;
    } else {
      assert (p + q)[1..] == p[1..] + q;
      JoinAppend(p[1..], q, sep);
    }
  }

  /** The pieces of `a + "," + b` are the pieces of `a` followed by those of `b`. */
  lemma SplitAtComma(a: string, b: string)
    ensures Split(a + "," + b) == Split(a) + Split(b)
  {
    var ps := Split(a) + Split(b);
    JoinAppend(Split(a), Split(b), ",");
    JoinSplit(a);
    JoinSplit(b);
    assert Join(ps, ",") == a + "," + b;
    SplitJoin(ps);
  }

  /** `toLowerCase` on one character, for the ASCII letters. */
  function LowerChar(c: char): char {
    if 'A' <= c <= 'Z' then (c as int + 32) as char else c
  }

  /** `s.toLowerCase()`: no upper-case ASCII letter is left. */
  function Lower(s: string): (r: string)
    ensures |r| == |s|
    ensures forall i :: 0 <= i < |r| ==> !('A' <= r[i] <= 'Z')
    ensures forall i :: 0 <= i < |s| && 'A' <= s[i] <= 'Z' ==> r[i] as int == s[i] as int + 32
    ensures forall i :: 0 <= i < |s| && !('A' <= s[i] <= 'Z') ==> r[i] == s[i]
  {
    seq(|s|, i requires 0 <= i < |s| => LowerChar(s[i]))
  }

  /** Lowercasing twice is lowercasing once. */
  lemma LowerIdempotent(s: string)
    ensures Lower(Lower(s)) == Lower(s)
  {
    forall i | 0 <= i < |s|
      ensures Lower(Lower(s))[i] == Lower(s)[i]
    {
      var c := s[i];
      assert Lower(s)[i] == LowerChar(c);
      if 'A' <= c <= 'Z' {
        assert !('A' <= LowerChar(c) <= 'Z');
      }
    }
  }

  /** Lowercasing leaves whitespace where it was. */
  lemma LowerKeepsWhitespace(s: string)
    ensures AllWhitespace(Lower(s)) <==> AllWhitespace(s)
  {
    forall i | 0 <= i < |s|
      ensures IsWhitespace(Lower(s)[i]) <==> IsWhitespace(s[i])
    {
      LowerCharKeepsWhitespace(s[i]);
    }
  }

  lemma LowerCharKeepsWhitespace(c: char)
    ensures IsWhitespace(LowerChar(c)) <==> IsWhitespace(c)
  {
    if IsWhitespace(c) {
      WhitespaceIsNoLetter(c);
    }
    if IsWhitespace(LowerChar(c)) {
      WhitespaceIsNoLetter(LowerChar(c));
    }
  }

  /** `h.includes(n)`: the empty string is in every string, and nothing longer than `h` is in `h`. */
  function Contains(h: string, n: string): (b: bool)
    ensures n == [] ==> b
    ensures b ==> |n| <= |h|
  {
    n <= h || (h != [] && Contains(h[1..], n))
  }

  /** `includes` holds exactly when `n` starts at some position of `h`. */
  lemma {:induction false} ContainsAt(h: string, n: string)
    ensures Contains(h, n) <==> exists i :: 0 <= i <= |h| && n <= h[i..]
  {
    if h == [] {
      assert forall i :: 0 <= i <= |h| ==> h[i..] == h;
    } else {
      ContainsAt(h[1..], n);
      assert h[0..] == h;
      if exists i :: 0 <= i <= |h| && n <= h[i..] {
        var i :| 0 <= i <= |h| && n <= h[i..];
        if i > 0 {
          assert h[1..][i - 1..] == h[i..];
        }
      }
      forall i | 0 <= i <= |h[1..]| && n <= h[1..][i..]
        ensures n <= h[i + 1..]
      {
        assert h[1..][i..] == h[i + 1..];
      }
    }
  }

  /** Lexicographic order on strings: for `YYYY-MM-DD` dates it is the chronological order. */
  predicate LexLeq(a: string, b: string) {
    if a == [] then true
    else if b == [] then false
    else if a[0] < b[0] then true
    else if a[0] == b[0] then LexLeq(a[1..], b[1..])
    else false
  }

  lemma {:induction false} LexLeqTotal(a: string, b: string)
    ensures LexLeq(a, b) || LexLeq(b, a)
  {
    if a != [] && b != [] && a[0] == b[0] {
      LexLeqTotal(a[1..], b[1..]);
    }
  }

  lemma {:induction false} LexLeqTransitive(a: string, b: string, c: string)
    requires LexLeq(a, b) && LexLeq(b, c)
    ensures LexLeq(a, c)
  {
    if a != [] && b != [] && c != [] && a[0] == b[0] == c[0] {
      LexLeqTransitive(a[1..], b[1..], c[1..]);
    }
  }

  lemma {:induction false} LexLeqAntisymmetric(a: string, b: string)
    requires LexLeq(a, b) && LexLeq(b, a)
    ensures a == b
  {
    if a != [] && b != [] {
      LexLeqAntisymmetric(a[1..], b[1..]);
      assert a == [a[0]] + a[1..] && b == [b[0]] + b[1..];
    }
  }
}
