/**
 * The tag field of the prompt form: the comma-separated text is parsed into
 * a tag list on submit, and an existing list is shown as its `", "` join.
 */
module PromptForm {
  import opened Wrappers
  import opened Text
  import opened Lists

  /** A tag as the parser can yield it: non-empty, trimmed, without a comma. */
  predicate ValidTag(t: string)
  {
    t != [] && IsTrimmed(t) && ',' !in t
  }

  /** `.map(t => t.trim())`. */
  function TrimAll(parts: seq<string>): (r: seq<string>)
    ensures |r| == |parts| && forall k :: 0 <= k < |parts| ==> r[k] == Trim(parts[k])
  {
    seq(|parts|, k requires 0 <= k < |parts| => Trim(parts[k]))
  }

  /** `.filter(t => t.length > 0)`. */
  function NonEmpty(): string -> bool
  {
    (t: string) => |t| > 0
  }

  /** The trimmed, non-empty comma-separated segments, in order. */
  function Segments(tagsString: string): seq<string>
  {
    Filter(TrimAll(SplitOn(tagsString, ",")), NonEmpty())
  }

  /**
   * `parseTagsFromString`: nothing for blank input; otherwise the trimmed,
   * non-empty comma-separated segments in order, duplicates kept, or
   * nothing when there are none.
   */
  function ParseTagsFromString(tagsString: string): (r: Option<seq<string>>)
    ensures AllWs(tagsString) ==> r.None?
    ensures r.Some? ==> r.value != [] && forall k :: 0 <= k < |r.value| ==> ValidTag(r.value[k])
  {
    TrimEmpty(tagsString);
    if |Trim(tagsString)| == 0 then None
    else
      var tags := Segments(tagsString);
      SegmentsValid(tagsString);
      if |tags| > 0 then Some(tags) else None
  }

  /** `tags?.join(", ") || ""`: the default text of the tag field. */
  function TagsDefaultValue(tags: Option<seq<string>>): string
  {
    if tags.Some? then JoinWith(tags.value, ", ") else ""
  }

  /** Every character of `piece` occurs in `s` and differs from `c`. */
  predicate PieceOf(piece: string, s: string, c: char)
  {
    forall x :: x in piece ==> x in s && x != c
  }

  /** Every character of a `split` piece comes from the input and is not the separator. */
  lemma {:induction false} SplitOnPieces(s: string, c: char)
    ensures forall k :: 0 <= k < |SplitOn(s, [c])| ==> PieceOf(SplitOn(s, [c])[k], s, c)
    decreases |s|
  {
    var parts := SplitOn(s, [c]);
    if s == [] {
    } else {
      var rest := SplitOn(s[1..], [c]);
      SplitOnPieces(s[1..], c);
      assert forall x :: x in s[1..] ==> x in s;
      if [c] <= s {
        assert parts == [[]] + rest;
        forall k | 0 <= k < |parts| ensures PieceOf(parts[k], s, c) {
          if k > 0 {
            assert parts[k] == rest[k - 1];
            assert PieceOf(rest[k - 1], s[1..], c);
          }
        }
      } else {
        assert parts == [[s[0]] + rest[0]] + rest[1..];
        assert s[0] != c;
        forall k | 0 <= k < |parts| ensures PieceOf(parts[k], s, c) {
          if k > 0 {
            assert parts[k] == rest[k];
            assert PieceOf(rest[k], s[1..], c);
          } else {
            assert PieceOf(rest[0], s[1..], c);
          }
        }
      }
    }
  }

  /** Trimming only removes characters. */
  lemma TrimKeepsChars(s: string)
    ensures forall x :: x in Trim(s) ==> x in s
  {
    var t := TrimStart(s);
    assert forall x :: x in t ==> x in s;
    assert forall x :: x in TrimEnd(t) ==> x in t;
  }

  /** Trimmed, non-empty pieces free of commas are valid tags. */
  lemma TrimmedPiecesValid(parts: seq<string>)
    requires forall k :: 0 <= k < |parts| ==> ',' !in parts[k]
    ensures forall t :: t in Filter(TrimAll(parts), NonEmpty()) ==> ValidTag(t)
  {
    var trimmed := TrimAll(parts);
    FilterMembers(trimmed, NonEmpty());
    forall t | t in Filter(trimmed, NonEmpty()) ensures ValidTag(t) {
      var m :| 0 <= m < |trimmed| && trimmed[m] == t;
      TrimSpec(parts[m]);
      TrimKeepsChars(parts[m]);
    }
  }

  /** Each segment is a valid tag. */
  lemma SegmentsValid(tagsString: string)
    ensures forall k :: 0 <= k < |Segments(tagsString)| ==> ValidTag(Segments(tagsString)[k])
  {
    var parts := SplitOn(tagsString, ",");
    assert forall k :: 0 <= k < |parts| ==> ',' !in parts[k] by {
      SplitOnPieces(tagsString, ',');
      forall k | 0 <= k < |parts| ensures ',' !in parts[k] {
        assert PieceOf(parts[k], tagsString, ',');
      }
    }
    TrimmedPiecesValid(parts);
    var segs := Filter(TrimAll(parts), NonEmpty());
    assert forall k :: 0 <= k < |segs| ==> segs[k] in segs;
  }

  /**
   * The parser is exactly the segment list: present iff some segment is
   * non-blank, and then the non-empty trimmed segments in order, duplicates
   * kept, an order-preserving sub-sequence of the trimmed pieces in which
   * every non-blank piece appears.
   */
  lemma SegmentsInOrder(tagsString: string)
    ensures ParseTagsFromString(tagsString) ==
      (if Segments(tagsString) == [] then None else Some(Segments(tagsString)))
    ensures Segments(tagsString) == Filter(TrimAll(SplitOn(tagsString, ",")), NonEmpty())
    ensures IsSubseq(Segments(tagsString), TrimAll(SplitOn(tagsString, ",")))
    ensures forall k :: 0 <= k < |SplitOn(tagsString, ",")| && !AllWs(SplitOn(tagsString, ",")[k]) ==>
      Trim(SplitOn(tagsString, ",")[k]) in Segments(tagsString)
  {
    ParseIsSegments(tagsString);
    FilterIsSubseq(TrimAll(SplitOn(tagsString, ",")), NonEmpty());
    NonBlankPiecesKept(SplitOn(tagsString, ","));
  }

  /** Every piece that is not all whitespace survives trimming and the non-empty filter. */
  lemma NonBlankPiecesKept(parts: seq<string>)
    ensures forall k :: 0 <= k < |parts| && !AllWs(parts[k]) ==> Trim(parts[k]) in Filter(TrimAll(parts), NonEmpty())
  {
    var trimmed := TrimAll(parts);
    FilterMembers(trimmed, NonEmpty());
    forall k | 0 <= k < |parts| && !AllWs(parts[k]) ensures Trim(parts[k]) in Filter(trimmed, NonEmpty()) {
      TrimEmpty(parts[k]);
      assert trimmed[k] in trimmed;
    }
  }

  /** Blank input has no segments, so both branches of the parser agree with the segment test. */
  lemma ParseIsSegments(tagsString: string)
    ensures ParseTagsFromString(tagsString) ==
      (if Segments(tagsString) == [] then None else Some(Segments(tagsString)))
  {
    TrimEmpty(tagsString);
    if AllWs(tagsString) {
      SeparatorsOnlySegments(tagsString);
    }
  }

  /** Pieces of a text made of commas and whitespace trim to nothing. */
  lemma SeparatorsOnlySegments(tagsString: string)
    requires forall i :: 0 <= i < |tagsString| ==> tagsString[i] == ',' || IsWs(tagsString[i])
    ensures Segments(tagsString) == []
  {
    var parts := SplitOn(tagsString, ",");
    SplitOnPieces(tagsString, ',');
    forall k | 0 <= k < |parts| ensures !NonEmpty()(TrimAll(parts)[k]) {
      assert PieceOf(parts[k], tagsString, ',');
      forall i | 0 <= i < |parts[k]| ensures IsWs(parts[k][i]) {
        assert parts[k][i] in parts[k];
        assert parts[k][i] in tagsString;
      }
      TrimEmpty(parts[k]);
    }
    FilterDropsAll(TrimAll(parts), NonEmpty());
  }

  /** Commas and whitespace alone give no tags. */
  lemma OnlySeparators(tagsString: string)
    requires forall i :: 0 <= i < |tagsString| ==> tagsString[i] == ',' || IsWs(tagsString[i])
    ensures ParseTagsFromString(tagsString).None?
  {
    SeparatorsOnlySegments(tagsString);
  }

  /** Input with a non-blank comma segment parses to a present tag list ("work,ai" gives both tags). */
  lemma NonBlankSegmentParses(tagsString: string, k: nat)
    requires k < |SplitOn(tagsString, ",")| && !AllWs(SplitOn(tagsString, ",")[k])
    ensures ParseTagsFromString(tagsString) == Some(Segments(tagsString))
    ensures Trim(SplitOn(tagsString, ",")[k]) in ParseTagsFromString(tagsString).value
  {
    SegmentsInOrder(tagsString);
  }

  /** `tags` with a space in front of every tag but the first. */
  function Spaced(tags: seq<string>): (r: seq<string>)
    ensures |r| == |tags|
  {
    seq(|tags|, k requires 0 <= k < |tags| => if k == 0 then tags[0] else " " + tags[k])
  }

  /** Joining with ", " is joining the spaced tags with ",". */
  lemma {:induction false} JoinSpaced(tags: seq<string>)
    requires tags != []
    ensures JoinWith(tags, ", ") == JoinWith(Spaced(tags), ",")
  {
    if |tags| > 1 {
      var rest := tags[1..];
      JoinSpaced(rest);
      var sr := Spaced(rest);
      assert Spaced(tags)[1..] == [[' '] + sr[0]] + sr[1..];
      JoinWithConsHead(' ', sr, ",");
      assert JoinWith(Spaced(tags), ",") == tags[0] + "," + JoinWith(Spaced(tags)[1..], ",");
    }
  }

  /** A join starts with its first piece. */
  lemma JoinStartsWithHead(tags: seq<string>, sep: string)
    requires tags != []
    ensures tags[0] <= JoinWith(tags, sep)
  {
  }

  /** Splitting the default text at commas gives the spaced tags. */
  lemma SplitDefault(tags: seq<string>)
    requires tags != []
    requires forall k :: 0 <= k < |tags| ==> ValidTag(tags[k])
    ensures SplitOn(JoinWith(tags, ", "), ",") == Spaced(tags)
  {
    var spaced := Spaced(tags);
    JoinSpaced(tags);
    forall k | 0 <= k < |spaced| ensures ',' !in spaced[k] {
      if k > 0 {
        assert spaced[k] == [' '] + tags[k];
      }
    }
    SplitJoinChar(spaced, ',');
  }

  /** Trimming the spaced tags gives the tags back. */
  lemma TrimSpaced(tags: seq<string>)
    requires forall k :: 0 <= k < |tags| ==> ValidTag(tags[k])
    ensures TrimAll(Spaced(tags)) == tags
  {
    var spaced := Spaced(tags);
    forall k | 0 <= k < |tags| ensures Trim(spaced[k]) == tags[k] {
      TrimSpacedAt(tags, k);
    }
  }

  lemma TrimSpacedAt(tags: seq<string>, k: nat)
    requires k < |tags| && ValidTag(tags[k])
    ensures Trim(Spaced(tags)[k]) == tags[k]
  {
    var t := tags[k];
    TrimIdentity(t);
    if k > 0 {
      assert Spaced(tags)[k] == " " + t;
      TrimSkipsLeadingWs(" ", t);
    } else {
      assert Spaced(tags)[k] == t;
    }
  }

  /**
   * Round trip of the form: a non-empty list of valid tags, shown as its
   * default text and parsed back, is the same list.
   */
  lemma ParseDefaultValue(tags: seq<string>)
    requires tags != []
    requires forall k :: 0 <= k < |tags| ==> ValidTag(tags[k])
    ensures ParseTagsFromString(TagsDefaultValue(Some(tags))) == Some(tags)
  {
    var s := JoinWith(tags, ", ");
    assert Segments(s) == tags by {
      SplitDefault(tags);
      TrimSpaced(tags);
      FilterKeepsAll(tags, NonEmpty());
    }
    assert !AllWs(s) by {
      JoinStartsWithHead(tags, ", ");
      assert s[0] == tags[0][0];
    }
    TrimEmpty(s);
  }

  /** A repeated tag is kept as often as it is written. */
  lemma DuplicatesKept()
    ensures ParseTagsFromString("a, a") == Some(["a", "a"])
  {
    assert ValidTag("a") by {
      TrimIdentity("a");
    }
    RepeatedTag("a");
    assert "a" + ", " + "a" == "a, a";
  }

  /** A valid tag written twice parses to the tag twice. */
  lemma RepeatedTag(t: string)
    requires ValidTag(t)
    ensures ParseTagsFromString(t + ", " + t) == Some([t, t])
  {
    var tags := [t, t];
    ParseDefaultValue(tags);
    assert JoinWith(tags[1..], ", ") == t;
  }

  /** With no tags the field starts empty and parses back to no tags. */
  lemma ParseDefaultNone()
    ensures ParseTagsFromString(TagsDefaultValue(None)).None?
  {
  }
}
