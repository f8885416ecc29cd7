/**
 * Event tags. The create and edit forms take tags as one comma-separated
 * string and store `input.split(",").map(trim).filter(nonEmpty)`; the edit
 * form shows stored tags joined by `", "`.
 */
module Tags {
  import opened Strings
  import Seqs

  /** What a stored tag looks like after normalisation. */
  predicate IsTag(t: string) {
    t != "" && ',' !in t && IsTrimmed(t)
  }

  predicate AllTags(ts: seq<string>) {
    forall t :: t in ts ==> IsTag(t)
  }

  /** Every character is a comma or whitespace: the input names no tag. */
  predicate IsBlankTagInput(s: string) {
    forall i :: 0 <= i < |s| ==> s[i] == ',' || IsWhitespace(s[i])
  }

  /** The filter's test: a trimmed piece is kept unless it is empty. */
  predicate NonEmpty(t: string) {
    t != ""
  }

  /**
   * `.map(tag => tag.trim()).filter(tag => tag !== "")` over the split
   * pieces, computed one piece at a time.
   */
  function Clean(pieces: seq<string>): (r: seq<string>)
    ensures r == Seqs.Filter(Seqs.Map(pieces, Trim), NonEmpty)
  {
    if pieces == [] then []
    else
      var trimmed := Seqs.Map(pieces, Trim);
      assert trimmed == [Trim(pieces[0])] + Seqs.Map(pieces[1..], Trim);
      CleanOne(pieces[0]) + Clean(pieces[1..])
  }

  /** Comma-free pieces clean up into tags. */
  lemma {:induction false} CleanTags(pieces: seq<string>)
    requires forall p :: p in pieces ==> ',' !in p
    ensures AllTags(Clean(pieces))
  {
    if pieces != [] {
      assert pieces[0] in pieces;
      TrimKeepsCharacters(pieces[0], ',');
      CleanTags(pieces[1..]);
      assert Clean(pieces) == CleanOne(pieces[0]) + Clean(pieces[1..]);
    }
  }

  /**
   * The tag list stored for a tag input (src/pages/CreateEvent.jsx:44,
   * src/pages/EditEvent.jsx:46). Normalised tags are non-empty, hold no comma
   * and no whitespace at their ends; the input order is kept (see
   * NormalizeAtComma).
   */
  function NormalizeTags(input: string): (r: seq<string>)
    ensures AllTags(r)
  {
    CleanTags(Split(input));
    Clean(Split(input))
  }

  /**
   * The tag input the edit form shows for a stored list
   * (src/pages/EditEvent.jsx:17). Saving it unchanged gives the list back.
   */
  function JoinTags(ts: seq<string>): (r: string)
    ensures AllTags(ts) ==> NormalizeTags(r) == ts
  {
    if AllTags(ts) then TagsRoundTrip(ts); Join(ts, ", ") else Join(ts, ", ")
  }

  /** The first cleaned piece, if it is not blank. */
  function CleanOne(p: string): seq<string> {
    var t := Trim(p);
    if t == "" then [] else [t]
  }

  lemma CleanCons(p: string, ps: seq<string>)
    ensures Clean([p] + ps) == CleanOne(p) + Clean(ps)
  {
    assert ([p] + ps)[1..] == ps;
  }

  lemma {:induction false} CleanAppend(a: seq<string>, b: seq<string>)
    ensures Clean(a + b) == Clean(a) + Clean(b)
  {
    if a == [] {
      assert a + b == b;
    } else {
      var h, t := a[0], a[1..];
      calc {
        Clean(a + b);
        == { Seqs.HeadTail(a, b); }
        Clean([h] + (t + b));
        == { CleanCons(h, t + b); }
        CleanOne(h) + Clean(t + b);
        == { CleanAppend(t, b); }
        CleanOne(h) + (Clean(t) + Clean(b));
        == { Seqs.Associative(CleanOne(h), Clean(t), Clean(b)); }
        (CleanOne(h) + Clean(t)) + Clean(b);
        == { CleanCons(h, t); Seqs.HeadTail(a, b); }
        Clean(a) + Clean(b);
      }
    }
  }

  /** The tags of two comma-separated inputs are the tags of the first followed by those of the second. */
  lemma NormalizeAtComma(a: string, b: string)
    ensures NormalizeTags(a + "," + b) == NormalizeTags(a) + NormalizeTags(b)
  {
    SplitAtComma(a, b);
    CleanAppend(Split(a), Split(b));
  }

  /** Whitespace in front of the input makes no difference. */
  lemma NormalizeLeadingWhitespace(c: char, s: string)
    requires IsWhitespace(c)
    ensures NormalizeTags([c] + s) == NormalizeTags(s)
  {
    var p := Split(s);
    SplitCons(c, s);
    Seqs.HeadTail(p, []);
    CleanCons([c] + p[0], p[1..]);
    CleanCons(p[0], p[1..]);
    TrimLeadingWhitespace(c, p[0]);
  }

  /** A single tag is its own input. */
  lemma NormalizeOneTag(t: string)
    requires IsTag(t)
    ensures NormalizeTags(t) == [t]
  {
    SplitJoin([t]);
    TrimTrimmed(t);
    CleanCons(t, []);
  }

  lemma NormalizeEmpty()
    ensures NormalizeTags("") == []
  {
    TrimTrimmed("");
  }

  lemma TagsRoundTripStep(ts: seq<string>)
    requires |ts| > 1 && AllTags(ts)
    requires NormalizeTags(Join(ts[1..], ", ")) == ts[1..]
    ensures NormalizeTags(Join(ts, ", ")) == ts
  {
    var tail := Join(ts[1..], ", ");
    JoinCommaSpace(ts);
    NormalizeAtComma(ts[0], [' '] + tail);
    NormalizeOneTag(ts[0]);
    NormalizeLeadingWhitespace(' ', tail);
    Seqs.HeadTail(ts, []);
  }

  /**
   * Loading a normalised list into the edit form and saving it again
   * gives the same list.
   */
  lemma {:induction false} TagsRoundTrip(ts: seq<string>)
    requires AllTags(ts)
    ensures NormalizeTags(Join(ts, ", ")) == ts
  {
    if |ts| == 0 {
      NormalizeEmpty();
    } else if |ts| == 1 {
      NormalizeOneTag(ts[0]);
    } else {
      TagsRoundTrip(ts[1..]);
      TagsRoundTripStep(ts);
    }
  }

  /** Normalising is idempotent through the edit form. */
  lemma NormalizeIdempotent(input: string)
    ensures NormalizeTags(JoinTags(NormalizeTags(input))) == NormalizeTags(input)
  {
  }

  lemma BlankCons(c: char, t: string)
    ensures IsBlankTagInput([c] + t) <==> (c == ',' || IsWhitespace(c)) && IsBlankTagInput(t)
  {
    var s := [c] + t;
    assert s[0] == c;
    assert forall i :: 1 <= i < |s| ==> s[i] == t[i - 1];
    assert forall j :: 0 <= j < |t| ==> t[j] == s[j + 1];
  }

  lemma NormalizeAfterComma(t: string)
    ensures NormalizeTags([','] + t) == NormalizeTags(t)
  {
    SplitCons(',', t);
    CleanCons("", Split(t));
    TrimTrimmed("");
  }

  /** A character that is neither a comma nor whitespace in front makes a tag. */
  lemma NormalizeAfterOther(c: char, t: string)
    requires c != ',' && !IsWhitespace(c)
    ensures NormalizeTags([c] + t) != []
  {
    var p := Split(t);
    SplitCons(c, t);
    CleanCons([c] + p[0], p[1..]);
    TrimBlank([c] + p[0]);
    assert !AllWhitespace([c] + p[0]);
  }

  /** One character in front of an input that already satisfies NormalizeBlank. */
  lemma NormalizeBlankCons(c: char, t: string)
    requires NormalizeTags(t) == [] <==> IsBlankTagInput(t)
    ensures NormalizeTags([c] + t) == [] <==> IsBlankTagInput([c] + t)
  {
    BlankCons(c, t);
    if c == ',' {
      NormalizeAfterComma(t);
    } else if IsWhitespace(c) {
      NormalizeLeadingWhitespace(c, t);
    } else {
      NormalizeAfterOther(c, t);
    }
  }

  /** An input gives no tags exactly when it holds nothing but commas and whitespace. */
  lemma {:induction false} NormalizeBlank(s: string)
    ensures NormalizeTags(s) == [] <==> IsBlankTagInput(s)
  {
    if s == [] {
      NormalizeEmpty();
    } else {
      NormalizeBlank(s[1..]);
      NormalizeBlankCons(s[0], s[1..]);
      assert s == [s[0]] + s[1..];
    }
  }
}
