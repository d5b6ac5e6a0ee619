/**
 * Template filling: `{clipboard}` is replaced by the clipboard text and
 * `{cursor}` marks where the caret should land. The copy path removes every
 * `{cursor}`; the paste path removes the first one and reports how many
 * characters follow it.
 */
module Placeholder {
  import opened Wrappers
  import opened Text

  const ClipboardToken: string := "{clipboard}"
  const CursorToken: string := "{cursor}"

  /** What `Clipboard.readText()` gave: some text, `null`/`undefined`, or a thrown error. */
  datatype ClipboardRead = ReadText(text: string) | ReadNull | ReadFailed

  /** The result of the paste path: the text and, when a marker was found, the caret offset. */
  datatype PasteResult = PasteResult(text: string, cursorOffset: Option<int>)

  /** The per-token occurrence counts. */
  datatype PlaceholderCounts = PlaceholderCounts(clipboard: nat, cursor: nat)

  /**
   * `getClipboardText`: an explicitly supplied text wins, even the empty one;
   * otherwise the clipboard's text, with a null read or a failed read giving "".
   */
  function GetClipboardText(provided: Option<string>, read: ClipboardRead): string
  {
    match provided
    case Some(t) => t
    case None =>
      match read
      case ReadText(t) => t
      case ReadNull => ""
      case ReadFailed => ""
  }

  /** The first step of both fill paths: every `{clipboard}` replaced, when there is one. */
  function SubstituteClipboard(template: string, provided: Option<string>, read: ClipboardRead): string
  {
    if Contains(template, ClipboardToken) then
      ReplaceAll(template, ClipboardToken, GetClipboardText(provided, read))
    else template
  }

  /**
   * The cursor step of the copy path: every `{cursor}` deleted in one pass,
   * i.e. the text is cut at its markers and the pieces are concatenated.
   */
  function RemoveCursors(s: string): (r: string)
    ensures !Contains(s, CursorToken) ==> r == s
    ensures r == JoinWith(SplitOn(s, CursorToken), "")
    ensures |r| == |s| - Count(s, CursorToken) * |CursorToken|
  {
    ReplaceAllIsSplitJoin(s, CursorToken, "");
    ReplaceAllLength(s, CursorToken, "");
    if Contains(s, CursorToken) then ReplaceAll(s, CursorToken, "")
    else
      ReplaceAllAbsent(s, CursorToken, "");
      s
  }

  /**
   * The cursor step of the paste path. With `i` the first index of `{cursor}`
   * in `s`, the text is `s` without that one marker and the offset is the
   * number of characters that followed it, so that moving the caret left by
   * the offset puts it exactly where the marker stood.
   */
  function CutAtFirstCursor(s: string): (r: PasteResult)
    ensures r.cursorOffset.None? <==> !Contains(s, CursorToken)
    ensures r.cursorOffset.None? ==> r.text == s
    ensures r.cursorOffset.Some? ==>
      var i := IndexOf(s, CursorToken);
      var off := r.cursorOffset.value;
      && 0 <= off <= |r.text|
      && off == |s| - i - |CursorToken|
      && r.text == s[..i] + s[i + |CursorToken|..]
      && r.text[..|r.text| - off] == s[..i]
      && r.text[|r.text| - off..] == s[i + |CursorToken|..]
      && (off == 0 <==> i + |CursorToken| == |s|)
  {
    if Contains(s, CursorToken) then
      var cursorIndex := IndexOf(s, CursorToken);
      var withoutCursor := s[..cursorIndex] + s[cursorIndex + |CursorToken|..];
      PasteResult(withoutCursor, Some(|withoutCursor| - cursorIndex))
    else
      PasteResult(s, None)
  }

  /** `fillPromptBody` (copy path): clipboard substitution, then every `{cursor}` removed. */
  function FillPromptBody(template: string, provided: Option<string>, read: ClipboardRead): (r: string)
    ensures !HasPlaceholders(template) ==> r == template
    ensures !Contains(template, ClipboardToken) ==> r == JoinWith(SplitOn(template, CursorToken), "")
    ensures Contains(template, ClipboardToken) ==>
      r == JoinWith(SplitOn(JoinWith(SplitOn(template, ClipboardToken), GetClipboardText(provided, read)), CursorToken), "")
  {
    if Contains(template, ClipboardToken) then
      ReplaceAllIsSplitJoin(template, ClipboardToken, GetClipboardText(provided, read));
      RemoveCursors(SubstituteClipboard(template, provided, read))
    else
      RemoveCursors(SubstituteClipboard(template, provided, read))
  }

  /** `fillPromptForPaste` (paste path): clipboard substitution, then the first `{cursor}` cut out. */
  function FillPromptForPaste(template: string, provided: Option<string>, read: ClipboardRead): (r: PasteResult)
    ensures !HasPlaceholders(template) ==> r == PasteResult(template, None)
    ensures r.cursorOffset.None? <==> !Contains(SubstituteClipboard(template, provided, read), CursorToken)
    ensures r.cursorOffset.Some? ==> 0 <= r.cursorOffset.value <= |r.text|
    ensures Count(SubstituteClipboard(template, provided, read), CursorToken) <= 1 ==>
      r.text == FillPromptBody(template, provided, read)
    ensures Count(SubstituteClipboard(template, provided, read), CursorToken) >= 2 ==>
      Contains(r.text, CursorToken)
    ensures Contains(template, ClipboardToken) ==>
      r == CutAtFirstCursor(JoinWith(SplitOn(template, ClipboardToken), GetClipboardText(provided, read)))
  {
    ReplaceAllIsSplitJoin(template, ClipboardToken, GetClipboardText(provided, read));
    PasteTextVersusCopy(SubstituteClipboard(template, provided, read));
    CutAtFirstCursor(SubstituteClipboard(template, provided, read))
  }

  /** `hasPlaceholders`. */
  function HasPlaceholders(template: string): (r: bool)
    ensures r <==> Count(template, ClipboardToken) > 0 || Count(template, CursorToken) > 0
  {
    CountZero(template, ClipboardToken);
    CountZero(template, CursorToken);
    Contains(template, ClipboardToken) || Contains(template, CursorToken)
  }

  /** `countPlaceholders`: the number of matches of each token, found left to right without overlap. */
  function CountPlaceholders(template: string): (r: PlaceholderCounts)
    ensures r.clipboard + 1 == |SplitOn(template, ClipboardToken)|
    ensures r.cursor + 1 == |SplitOn(template, CursorToken)|
  {
    ReplaceAllIsSplitJoin(template, ClipboardToken, "");
    ReplaceAllIsSplitJoin(template, CursorToken, "");
    PlaceholderCounts(Count(template, ClipboardToken), Count(template, CursorToken))
  }

  // ---------------------------------------------------------------------------
  // Properties
  // ---------------------------------------------------------------------------

  /**
   * One left-to-right pass: the template is cut at its `{clipboard}` tokens and
   * the pieces are joined with the clipboard text, so text that the clipboard
   * brings in is never searched for the token again. Each token grows or
   * shrinks the text by the difference in length.
   */
  lemma ClipboardSinglePass(template: string, provided: Option<string>, read: ClipboardRead)
    requires Contains(template, ClipboardToken)
    ensures var c := GetClipboardText(provided, read);
      && SubstituteClipboard(template, provided, read) == JoinWith(SplitOn(template, ClipboardToken), c)
      && |SubstituteClipboard(template, provided, read)|
         == |template| + Count(template, ClipboardToken) * (|c| - |ClipboardToken|)
  {
    var c := GetClipboardText(provided, read);
    ReplaceAllIsSplitJoin(template, ClipboardToken, c);
    ReplaceAllLength(template, ClipboardToken, c);
  }

  /** The clipboard is consulted only when the template contains `{clipboard}`. */
  lemma ClipboardReadOnlyWhenNeeded(template: string, provided: Option<string>, r1: ClipboardRead, r2: ClipboardRead)
    requires !Contains(template, ClipboardToken)
    ensures FillPromptBody(template, provided, r1) == FillPromptBody(template, provided, r2)
    ensures FillPromptForPaste(template, provided, r1) == FillPromptForPaste(template, provided, r2)
  {
  }

  /** An explicitly supplied clipboard text is used whatever the clipboard holds. */
  lemma ProvidedTextWins(template: string, t: string, r1: ClipboardRead, r2: ClipboardRead)
    ensures FillPromptBody(template, Some(t), r1) == FillPromptBody(template, Some(t), r2)
    ensures FillPromptForPaste(template, Some(t), r1) == FillPromptForPaste(template, Some(t), r2)
  {
  }

  lemma ContainsInSuffix(a: string, b: string, p: string)
    requires Contains(b, p)
    ensures Contains(a + b, p)
  {
    var i: nat :| i <= |b| && OccursAt(b, p, i);
    assert (a + b)[|a| + i..|a| + i + |p|] == b[i..i + |p|];
    assert OccursAt(a + b, p, |a| + i);
  }

  /**
   * When the substituted text holds at most one `{cursor}`, both paths give
   * the same text; with two or more, the paste text still holds a marker,
   * since only the first is removed there.
   */
  lemma {:induction false} PasteTextVersusCopy(s: string)
    ensures Count(s, CursorToken) <= 1 ==> CutAtFirstCursor(s).text == RemoveCursors(s)
    ensures Count(s, CursorToken) >= 2 ==> Contains(CutAtFirstCursor(s).text, CursorToken)
  {
    CountZero(s, CursorToken);
    if Contains(s, CursorToken) {
      var i := IndexOf(s, CursorToken);
      var rest := s[i + |CursorToken|..];
      CutVersusRemove(s);
      CountZero(rest, CursorToken);
      if Count(s, CursorToken) <= 1 {
        ReplaceAllAbsent(rest, CursorToken, "");
      } else {
        ContainsInSuffix(s[..i], rest, CursorToken);
      }
    }
  }

  /** Both paths keep the text before the first marker and differ only after it. */
  lemma CutVersusRemove(s: string)
    requires Contains(s, CursorToken)
    ensures var i := IndexOf(s, CursorToken);
      var rest := s[i + |CursorToken|..];
      && CutAtFirstCursor(s).text == s[..i] + rest
      && RemoveCursors(s) == s[..i] + ReplaceAll(rest, CursorToken, "")
      && Count(s, CursorToken) == 1 + Count(rest, CursorToken)
  {
    RemoveAtFirst(s);
  }

  /** Removing every marker: the text before the first one, then the rest with its markers removed. */
  lemma RemoveAtFirst(s: string)
    requires Contains(s, CursorToken)
    ensures var i := IndexOf(s, CursorToken);
      var rest := s[i + |CursorToken|..];
      && RemoveCursors(s) == s[..i] + ReplaceAll(rest, CursorToken, "")
      && Count(s, CursorToken) == 1 + Count(rest, CursorToken)
  {
    var i := IndexOf(s, CursorToken);
    ReplaceAllAtFirst(s, CursorToken, "", i);
    assert s[..i] + "" == s[..i];
  }

  /** A character of `p` that `s` lacks rules out every occurrence of `p`. */
  lemma MissingChar(s: string, p: string, c: char)
    requires c in p && c !in s
    ensures !Contains(s, p)
  {
    var k :| 0 <= k < |p| && p[k] == c;
    forall i: nat | i <= |s| ensures !OccursAt(s, p, i) {
      if i + |p| <= |s| {
        assert s[i..i + |p|][k] == s[i + k];
      }
    }
  }

  /** An occurrence with no earlier copy of the pattern's first character is the first one. */
  lemma FirstOccurrence(s: string, p: string, i: nat)
    requires p != [] && OccursAt(s, p, i)
    requires forall j :: 0 <= j < i ==> s[j] != p[0]
    ensures IndexOf(s, p) == i
  {
    assert s[i..i + |p|][0] == p[0];
    var k := IndexOf(s, p);
    assert s[k..k + |p|][0] == s[k];
  }

  // ---------------------------------------------------------------------------
  // Test vectors
  // ---------------------------------------------------------------------------

  /**
   * A text whose first marker follows `a` is pasted as `a + b` with the caret
   * moved back over `b`.
   */
  lemma CutAtMarker(a: string, b: string)
    requires '{' !in a
    ensures CutAtFirstCursor(a + CursorToken + b) == PasteResult(a + b, Some(|b|))
  {
    var s := a + CursorToken + b;
    assert s[|a|..|a| + 8] == CursorToken;
    forall j | 0 <= j < |a| ensures s[j] != CursorToken[0] {
      assert s[j] == a[j];
    }
    FirstOccurrence(s, CursorToken, |a|);
    assert s[..|a|] == a && s[|a| + 8..] == b;
  }

  /** The paste path on a template without `{clipboard}` whose first marker follows `a`. */
  lemma PasteOf(template: string, a: string, b: string)
    requires !Contains(template, ClipboardToken) && '{' !in a && template == a + CursorToken + b
    ensures FillPromptForPaste(template, None, ReadNull) == PasteResult(a + b, Some(|b|))
  {
    CutAtMarker(a, b);
  }

  /** Cursor offset vector: a marker at the end needs no caret movement. */
  lemma PasteVectorAtEnd()
    ensures FillPromptForPaste("Hello World {cursor}", None, ReadNull) == PasteResult("Hello World ", Some(0))
  {
    MissingChar("Hello World {cursor}", ClipboardToken, 'b');
    PasteOf("Hello World {cursor}", "Hello World ", "");
  }

  /** Cursor offset vector: a marker at the start is followed by the whole text. */
  lemma PasteVectorAtStart()
    ensures FillPromptForPaste("{cursor} Hello World", None, ReadNull) == PasteResult(" Hello World", Some(12))
  {
    MissingChar("{cursor} Hello World", ClipboardToken, 'b');
    PasteOf("{cursor} Hello World", "", " Hello World");
  }

  /** Copy vector: a `{cursor}` that arrives with the clipboard text is removed too. */
  lemma CopyVectorCursorFromClipboard()
    ensures FillPromptBody("{clipboard}", Some("{cursor}"), ReadFailed) == ""
  {
    var t := "{clipboard}";
    assert OccursAt(t, ClipboardToken, 0);
    ReplaceAllAtFirst(t, ClipboardToken, "{cursor}", 0);
    assert t[11..] == [];
    var u := "{cursor}";
    assert OccursAt(u, CursorToken, 0);
    ReplaceAllAtFirst(u, CursorToken, "", 0);
    assert u[8..] == [];
  }

  // ---------------------------------------------------------------------------
  // The replacement as the runtime performs it
  // ---------------------------------------------------------------------------

  /**
   * ECMAScript's GetSubstitution for a pattern without capture groups: in the
   * replacement, `$$` stands for `$`, `$&` for the match, `` $` `` for the
   * text before it and `$'` for the text after it; any other `$` is literal.
   */
  function Expand(rep: string, matched: string, before: string, after: string): string
    decreases |rep|
  {
    if rep == [] then []
    else if |rep| >= 2 && rep[0] == '$' && rep[1] == '$' then "$" + Expand(rep[2..], matched, before, after)
    else if |rep| >= 2 && rep[0] == '$' && rep[1] == '&' then matched + Expand(rep[2..], matched, before, after)
    else if |rep| >= 2 && rep[0] == '$' && rep[1] == '`' then before + Expand(rep[2..], matched, before, after)
    else if |rep| >= 2 && rep[0] == '$' && rep[1] == '\'' then after + Expand(rep[2..], matched, before, after)
    else [rep[0]] + Expand(rep[1..], matched, before, after)
  }

  /** `s.replace(/p/g, rep)` from index `i` on, expanding `rep` at every match. */
  function ReplaceAllExpanding(s: string, p: string, rep: string, i: nat): string
    requires p != [] && i <= |s|
    decreases |s| - i
  {
    if i == |s| then []
    else if OccursAt(s, p, i) then Expand(rep, p, s[..i], s[i + |p|..]) + ReplaceAllExpanding(s, p, rep, i + |p|)
    else [s[i]] + ReplaceAllExpanding(s, p, rep, i + 1)
  }

  /** The clipboard step of both paths exactly as written: `replace(/{clipboard}/g, text)` expands `text`. */
  function SubstituteClipboardAsWritten(template: string, provided: Option<string>, read: ClipboardRead): string
  {
    if Contains(template, ClipboardToken)
    then ReplaceAllExpanding(template, ClipboardToken, GetClipboardText(provided, read), 0)
    else template
  }

  /** `fillPromptBody` exactly as written, with the runtime's expansion of the clipboard text. */
  function FillPromptBodyAsWritten(template: string, provided: Option<string>, read: ClipboardRead): string
  {
    var s := SubstituteClipboardAsWritten(template, provided, read);
    if Contains(s, CursorToken) then ReplaceAll(s, CursorToken, "") else s
  }

  /**
   * `fillPromptForPaste` exactly as written. Its cursor step replaces with the
   * empty string, which holds no `$`, so only the clipboard step expands.
   */
  function FillPromptForPasteAsWritten(template: string, provided: Option<string>, read: ClipboardRead): PasteResult
  {
    CutAtFirstCursor(SubstituteClipboardAsWritten(template, provided, read))
  }

  lemma {:induction false} ExpandLiteral(rep: string, matched: string, before: string, after: string)
    requires '$' !in rep
    ensures Expand(rep, matched, before, after) == rep
    decreases |rep|
  {
    if rep != [] {
      assert rep[0] != '$';
      ExpandLiteral(rep[1..], matched, before, after);
      assert [rep[0]] + rep[1..] == rep;
    }
  }

  lemma {:induction false} ReplaceAllExpandingLiteral(s: string, p: string, rep: string, i: nat)
    requires p != [] && i <= |s| && '$' !in rep
    ensures ReplaceAllExpanding(s, p, rep, i) == ReplaceAll(s[i..], p, rep)
    decreases |s| - i
  {
    if i < |s| {
      OccursAtStart(s[i..], p);
      assert OccursAt(s, p, i) <==> OccursAt(s[i..], p, 0) by {
        if i + |p| <= |s| { assert s[i..][..|p|] == s[i..i + |p|]; }
      }
      if OccursAt(s, p, i) {
        ExpandLiteral(rep, p, s[..i], s[i + |p|..]);
        ReplaceAllExpandingLiteral(s, p, rep, i + |p|);
        assert s[i..][|p|..] == s[i + |p|..];
      } else {
        ReplaceAllExpandingLiteral(s, p, rep, i + 1);
        assert s[i..][1..] == s[i + 1..];
      }
    }
  }

  /** As long as the clipboard text holds no `$`, the code as written behaves as intended. */
  lemma AsWrittenAgreesWithoutDollar(template: string, provided: Option<string>, read: ClipboardRead)
    requires '$' !in GetClipboardText(provided, read)
    ensures SubstituteClipboardAsWritten(template, provided, read) == SubstituteClipboard(template, provided, read)
    ensures FillPromptBodyAsWritten(template, provided, read) == FillPromptBody(template, provided, read)
    ensures FillPromptForPasteAsWritten(template, provided, read) == FillPromptForPaste(template, provided, read)
  {
    if Contains(template, ClipboardToken) {
      ReplaceAllExpandingLiteral(template, ClipboardToken, GetClipboardText(provided, read), 0);
      assert template[0..] == template;
    }
  }

  /** The clipboard step on `{clipboard}` alone, as written and as intended. */
  lemma ClipboardStepVectors()
    ensures SubstituteClipboardAsWritten("{clipboard}", Some("$&"), ReadFailed) == "{clipboard}"
    ensures SubstituteClipboardAsWritten("{clipboard}", Some("$$"), ReadFailed) == "$"
    ensures SubstituteClipboard("{clipboard}", Some("$&"), ReadFailed) == "$&"
  {
    var t := "{clipboard}";
    assert OccursAt(t, ClipboardToken, 0);
    assert t[..0] == [] && t[11..] == [];
    assert ReplaceAllExpanding(t, ClipboardToken, "$&", 0) == "{clipboard}";
    assert ReplaceAllExpanding(t, ClipboardToken, "$$", 0) == "$";
    ReplaceAllAtFirst(t, ClipboardToken, "$&", 0);
  }

  /**
   * The discrepancy: a clipboard holding `$&` is not inserted verbatim; the
   * runtime puts the matched token back instead, and `$$` collapses to `$`.
   */
  lemma AsWrittenExpandsDollar()
    ensures FillPromptBodyAsWritten("{clipboard}", Some("$&"), ReadFailed) == "{clipboard}"
    ensures FillPromptBody("{clipboard}", Some("$&"), ReadFailed) == "$&"
    ensures FillPromptBodyAsWritten("{clipboard}", Some("$$"), ReadFailed) == "$"
  {
    ClipboardStepVectors();
    MissingChar("{clipboard}", CursorToken, 'u');
    MissingChar("$", CursorToken, '{');
    MissingChar("$&", CursorToken, '{');
  }

  /** The same discrepancy on the paste path: `$&` puts the token back, `$$` collapses to `$`. */
  lemma AsWrittenPasteExpandsDollar()
    ensures FillPromptForPasteAsWritten("{clipboard}", Some("$&"), ReadFailed) == PasteResult("{clipboard}", None)
    ensures FillPromptForPaste("{clipboard}", Some("$&"), ReadFailed) == PasteResult("$&", None)
    ensures FillPromptForPasteAsWritten("{clipboard}", Some("$$"), ReadFailed) == PasteResult("$", None)
  {
    ClipboardStepVectors();
    MissingChar("{clipboard}", CursorToken, 'u');
    MissingChar("$", CursorToken, '{');
    MissingChar("$&", CursorToken, '{');
  }
}
