/**
 The router's tag encoding: a resource's tags are stored as one string,
 the tags joined with commas (`toCSV`), and read back by splitting on
 commas, trimming every piece and dropping the empty ones (`fromCSV`).
 */
module TagCodec {
  import opened Wrappers
  import opened Text

  /** A tag the decoder can return: non-empty, comma-free, and with no
      whitespace at either end. */
  predicate CleanTag(t: string) {
    |t| > 0 && ',' !in t && Trimmed(t)
  }

  predicate CommaFree(tags: seq<string>) {
    forall i :: 0 <= i < |tags| ==> ',' !in tags[i]
  }

  predicate CleanTags(tags: seq<string>) {
    forall i :: 0 <= i < |tags| ==> CleanTag(tags[i])
  }

  /** `toCSV`: an absent or empty tag list is stored as the empty string. */
  function ToCSV(tags: Option<seq<string>>): (csv: string)
    ensures tags.None? || tags.value == [] ==> csv == ""
  {
    if tags.Some? && |tags.value| > 0 then Join(tags.value, ',') else ""
  }

  /** Every given tag occurs in its encoding. */
  lemma EncodingContainsTags(tags: seq<string>)
    ensures forall i :: 0 <= i < |tags| ==> Contains(ToCSV(Some(tags)), tags[i])
  {
    forall i | 0 <= i < |tags| ensures Contains(ToCSV(Some(tags)), tags[i]) {
      JoinContainsPieces(tags, ',', i);
    }
  }

  function TrimAll(xs: seq<string>): (r: seq<string>) {
    seq(|xs|, i requires 0 <= i < |xs| => Trim(xs[i]))
  }

  /** `.filter(Boolean)` on strings: keeps the non-empty pieces, in order. */
  function DropEmpty(xs: seq<string>): (r: seq<string>)
    ensures |r| <= |xs|
    ensures forall x :: x in r <==> x in xs && x != ""
  {
    if |xs| == 0 then []
    else
      var rest := DropEmpty(xs[1..]);
      assert xs == [xs[0]] + xs[1..];
      if xs[0] == "" then rest else [xs[0]] + rest
  }

  /** A list with no empty piece is kept whole. */
  lemma {:induction false} DropEmptyKeepsNonEmpty(xs: seq<string>)
    requires forall i :: 0 <= i < |xs| ==> xs[i] != ""
    ensures DropEmpty(xs) == xs
  {
    if |xs| > 0 {
      DropEmptyKeepsNonEmpty(xs[1..]);
      assert xs == [xs[0]] + xs[1..];
    }
  }

  /** Dropping empty pieces works piece by piece: the kept pieces of a
      concatenation are those of the first part followed by those of the
      second, so order and repeats are kept. */
  lemma {:induction false} DropEmptyAppend(a: seq<string>, b: seq<string>)
    ensures DropEmpty(a + b) == DropEmpty(a) + DropEmpty(b)
  {
    if |a| > 0 {
      assert (a + b)[1..] == a[1..] + b;
      DropEmptyAppend(a[1..], b);
    } else {
      assert a + b == b;
    }
  }

  /** Dropping from a single piece keeps it exactly when it is non-empty. */
  lemma DropEmptyOne(x: string)
    ensures DropEmpty([x]) == (if x == "" then [] else [x])
  {
  }

  /** `fromCSV`: every tag it returns is clean, and the empty string decodes
      to no tags. */
  function FromCSV(csv: string): (tags: seq<string>)
    ensures CleanTags(tags)
    ensures csv == "" ==> tags == []
  {
    if csv == "" then []
    else
      PiecesClean(csv);
      DropEmpty(TrimAll(Split(csv, ',')))
  }

  /** The trimmed pieces of a split are comma-free and trimmed, so the
      non-empty ones are clean tags. */
  lemma PiecesClean(csv: string)
    ensures CleanTags(DropEmpty(TrimAll(Split(csv, ','))))
  {
    var pieces := Split(csv, ',');
    var trimmed := TrimAll(pieces);
    var tags := DropEmpty(trimmed);
    forall t | t in trimmed ensures ',' !in t && Trimmed(t) {
      var i :| 0 <= i < |trimmed| && trimmed[i] == t;
      assert ',' !in pieces[i];
    }
    assert forall i :: 0 <= i < |tags| ==> tags[i] in tags;
  }

  /** Decoding a join of comma-free pieces: every piece is trimmed and the
      empty ones are dropped, in order. Whitespace at either end of any tag,
      and every tag that is empty once trimmed, are lost. */
  lemma DecodeJoin(xs: seq<string>)
    requires |xs| >= 1 && forall i :: 0 <= i < |xs| ==> ',' !in xs[i]
    ensures FromCSV(Join(xs, ',')) == DropEmpty(TrimAll(xs))
  {
    var csv := Join(xs, ',');
    SplitJoin(xs, ',');
    if csv == "" {
      assert xs == [""];
      assert TrimAll(xs) == [""];
    }
  }

  /** The same for the encoder: comma-free tags come back trimmed, with the
      empty ones dropped. */
  lemma DecodeCommaFree(tags: seq<string>)
    requires CommaFree(tags)
    ensures FromCSV(ToCSV(Some(tags))) == DropEmpty(TrimAll(tags))
  {
    if |tags| > 0 {
      DecodeJoin(tags);
    }
  }

  /** Round trip: a list of clean tags survives encoding and decoding. */
  lemma RoundTrip(tags: seq<string>)
    requires CleanTags(tags)
    ensures FromCSV(ToCSV(Some(tags))) == tags
  {
    if |tags| > 0 {
      var csv := ToCSV(Some(tags));
      SplitJoin(tags, ',');
      assert csv != "" by {
        assert Split("", ',') == [""];
      }
      assert TrimAll(Split(csv, ',')) == tags;
      DropEmptyKeepsNonEmpty(tags);
    }
  }

  /** The round trip holds exactly for lists of clean tags: a list that
      survives encoding and decoding is one, since every decoded tag is clean. */
  lemma RoundTripExactly(tags: seq<string>)
    ensures FromCSV(ToCSV(Some(tags))) == tags <==> CleanTags(tags)
  {
    if CleanTags(tags) {
      RoundTrip(tags);
    }
  }

  /** A tag holding a comma comes back as two tags: it is stored exactly as
      the two tags `a` and `b` would be. */
  lemma CommaSplitsTag()
    ensures FromCSV(ToCSV(Some(["a,b"]))) == ["a", "b"]
  {
    assert ToCSV(Some(["a,b"])) == ToCSV(Some(["a", "b"])) by {
      assert Join(["a", "b"], ',') == "a" + [','] + Join(["b"], ',');
    }
    assert Trimmed("a") && Trimmed("b");
    RoundTrip(["a", "b"]);
  }

  /** Decoding a single piece free of commas: its trimmed form, if non-empty. */
  lemma DecodeOnePiece(csv: string)
    requires csv != "" && ',' !in csv && Trim(csv) != ""
    ensures FromCSV(csv) == [Trim(csv)]
  {
    SplitNoSeparator(csv, ',');
    var trimmed := TrimAll([csv]);
    assert trimmed == [Trim(csv)];
    assert FromCSV(csv) == DropEmpty(trimmed);
  }

  /** A leading space in front of a trimmed, non-empty string is cut away. */
  lemma TrimLeadingSpace(x: string)
    requires |x| > 0 && Trimmed(x)
    ensures Trim([' '] + x) == x
  {
    var s := [' '] + x;
    var lo := SkipSpaces(s, 0);
    assert s[0] == ' ' && s[1] == x[0];
    assert lo == 1;
    assert s[|s| - 1] == x[|x| - 1];
    assert SkipSpacesBack(s, lo, |s|) == |s|;
    assert s[1..] == x;
  }

  /** Whitespace around a tag is lost: a clean tag written with a leading
      space comes back without it. */
  lemma LeadingSpaceLost(x: string)
    requires CleanTag(x)
    ensures FromCSV(ToCSV(Some([[' '] + x]))) == [x]
  {
    var t := [' '] + x;
    assert ToCSV(Some([t])) == t;
    assert ',' !in t by {
      assert forall i :: 1 <= i < |t| ==> t[i] == x[i - 1];
    }
    TrimLeadingSpace(x);
    DecodeOnePiece(t);
  }

  /** An empty tag disappears: an empty tag in front of a clean one leaves
      just the clean one. */
  lemma EmptyTagDisappears(x: string)
    requires CleanTag(x)
    ensures FromCSV(ToCSV(Some(["", x]))) == [x]
  {
    var csv := ToCSV(Some(["", x]));
    JoinCons("", [x], ',');
    assert csv == "" + [','] + x;
    SplitAfterPiece("", x, ',');
    SplitNoSeparator(x, ',');
    assert Split(csv, ',') == ["", x];
    var trimmed := TrimAll(["", x]);
    assert trimmed[0] == Trim("") == "";
    assert trimmed[1] == Trim(x) == x;
    assert trimmed == ["", x];
    assert FromCSV(csv) == DropEmpty(trimmed);
    assert DropEmpty(trimmed) == DropEmpty([x]) by {
      assert trimmed[1..] == [x];
    }
  }

  /** Normalisation is idempotent: decoding, re-encoding and decoding again
      yields the first decoding. */
  lemma DecodeIdempotent(csv: string)
    ensures FromCSV(ToCSV(Some(FromCSV(csv)))) == FromCSV(csv)
  {
    RoundTrip(FromCSV(csv));
  }

  /** Re-encoding is idempotent too: the canonical string of a stored string
      is its own canonical string. */
  lemma CanonicalIdempotent(csv: string)
    ensures ToCSV(Some(FromCSV(ToCSV(Some(FromCSV(csv)))))) == ToCSV(Some(FromCSV(csv)))
  {
    DecodeIdempotent(csv);
  }
}
