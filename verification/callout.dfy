/** `Editor.prototype.createCallout` (main.ts): the collapsible callout
    block the plugin writes into a note, over a value model of the host
    editor (document text plus a selection given by anchor and head). */
module Callout {
  import opened JsValues

  /** The host editor: the document and the selection, as offsets into
      the document. `head` is where the cursor sits; the selection spans
      from the smaller to the larger of the two offsets. */
  datatype Editor = Editor(doc: string, anchor: nat, head: nat)

  predicate ValidSelection(e: Editor) {
    e.anchor <= |e.doc| && e.head <= |e.doc|
  }

  function From(e: Editor): nat {
    if e.anchor <= e.head then e.anchor else e.head
  }

  function To(e: Editor): nat {
    if e.anchor <= e.head then e.head else e.anchor
  }

  /** Offset `pos` is at the beginning of a line. */
  predicate StartsLine(doc: string, pos: nat)
    requires pos <= |doc|
  {
    pos == 0 || doc[pos - 1] == '\n'
  }

  /** The column (`ch`) of offset `pos`: how far it lies after the last
      line break before it. */
  function Column(doc: string, pos: nat): (c: nat)
    requires pos <= |doc|
    ensures c <= pos
    ensures StartsLine(doc, pos - c)
    ensures forall i :: pos - c <= i < pos ==> doc[i] != '\n'
    ensures c == 0 <==> StartsLine(doc, pos)
  {
    if pos == 0 || doc[pos - 1] == '\n' then 0 else Column(doc, pos - 1) + 1
  }

  /** `replaceSelection(text)` as the host performs it: the selected range
      is replaced and the cursor is left after the inserted text. */
  function ReplaceSelection(e: Editor, text: string): (r: Editor)
    requires ValidSelection(e)
    ensures ValidSelection(r)
    ensures r.doc == e.doc[..From(e)] + text + e.doc[To(e)..]
    ensures r.anchor == r.head == From(e) + |text|
  {
    var p := From(e) + |text|;
    Editor(e.doc[..From(e)] + text + e.doc[To(e)..], p, p)
  }

  /** The callout block proper: a header line and one quoted line. */
  function Block(kind: string, title: string, text: string): string {
    "> [!" + kind + "]- " + title + "\n> " + text + "\n\n"
  }

  /** The text `createCallout` inserts when the cursor is at `column`:
      at column 0 just the block, elsewhere a blank line first. */
  function CalloutText(column: nat, kind: string, title: string, text: string): (r: string)
    ensures column == 0 ==> r == Block(kind, title, text)
    ensures column != 0 ==> r == "\n\n" + Block(kind, title, text)
    ensures |r| >= 2 && r[|r| - 2..] == "\n\n"
  {
    var lineBreak := if column == 0 then "" else "\n\n";
    lineBreak + Block(kind, title, text)
  }

  /** `createCallout` as written: the column comes from `getCursor()`,
      which is the selection head, while the text replaces the selection
      from its start. */
  function CreateCalloutAsWritten(e: Editor, kind: string, title: string, text: string): (r: Editor)
    requires ValidSelection(e)
    ensures ValidSelection(r)
    ensures r.doc == e.doc[..From(e)] + CalloutText(Column(e.doc, e.head), kind, title, text) + e.doc[To(e)..]
  {
    ReplaceSelection(e, CalloutText(Column(e.doc, e.head), kind, title, text))
  }

  /** `createCallout` with the column taken where the inserted text lands,
      the start of the selection. */
  function CreateCallout(e: Editor, kind: string, title: string, text: string): (r: Editor)
    requires ValidSelection(e)
    ensures ValidSelection(r)
    ensures r.doc == e.doc[..From(e)] + CalloutText(Column(e.doc, From(e)), kind, title, text) + e.doc[To(e)..]
  {
    ReplaceSelection(e, CalloutText(Column(e.doc, From(e)), kind, title, text))
  }

  /** The parts of inserted callout text, as the inverse of the template
      recovers them: whether a blank line came first, and the kind, title
      and text. This is not a Markdown reader: the text is whatever lies
      between the quote marker and the closing blank line. */
  datatype Parsed = Parsed(separated: bool, kind: string, title: string, text: string)

  /** The first occurrence of `c` in `s` at or after `from`. */
  function IndexOf(s: string, c: char, from: nat): (r: Option<nat>)
    requires from <= |s|
    ensures r.Some? ==> from <= r.value < |s| && s[r.value] == c
    ensures r.Some? ==> forall i :: from <= i < r.value ==> s[i] != c
    ensures r.None? ==> forall i :: from <= i < |s| ==> s[i] != c
    decreases |s| - from
  {
    if from == |s| then None
    else if s[from] == c then Some(from)
    else IndexOf(s, c, from + 1)
  }

  /** Inverts the block template `> [!kind]- title\n> text\n\n`: the kind
      ends at the first `]`, the title at the first line break after it,
      and the text is everything between the second `> ` and the final two
      characters. */
  function ParseBlock(s: string): Option<(string, string, string)> {
    if |s| < 4 || s[..4] != "> [!" then None
    else match IndexOf(s, ']', 4)
      case None => None
      case Some(j) =>
        if |s| < j + 3 || s[j..j + 3] != "]- " then None
        else match IndexOf(s, '\n', j + 3)
          case None => None
          case Some(k) =>
            if |s| < k + 5 || s[k..k + 3] != "\n> " || s[|s| - 2..] != "\n\n" then None
            else Some((s[4..j], s[j + 3..k], s[k + 3..|s| - 2]))
  }

  /** Inverts the inserted callout text, with or without the leading blank
      line. */
  function ParseCallout(s: string): Option<Parsed> {
    var separated := |s| >= 2 && s[..2] == "\n\n";
    match ParseBlock(if separated then s[2..] else s)
    case None => None
    case Some(p) => Some(Parsed(separated, p.0, p.1, p.2))
  }

  lemma {:induction false} ParseBlockRoundTrip(kind: string, title: string, text: string)
    requires forall i :: 0 <= i < |kind| ==> kind[i] != ']'
    requires forall i :: 0 <= i < |title| ==> title[i] != '\n'
    ensures ParseBlock(Block(kind, title, text)) == Some((kind, title, text))
  {
    var s := Block(kind, title, text);
    var j := 4 + |kind|;
    var k := j + 3 + |title|;
    assert |s| == k + 3 + |text| + 2;
    assert s[..4] == "> [!";
    assert forall i :: 4 <= i < j ==> s[i] == kind[i - 4];
    assert s[j] == ']';
    var rj := IndexOf(s, ']', 4);
    assert rj == Some(j);
    assert s[j..j + 3] == "]- ";
    assert forall i :: j + 3 <= i < k ==> s[i] == title[i - j - 3];
    assert s[k] == '\n';
    var rk := IndexOf(s, '\n', j + 3);
    assert rk == Some(k);
    assert s[k..k + 3] == "\n> ";
    assert s[|s| - 2..] == "\n\n";
    assert s[4..j] == kind;
    assert s[j + 3..k] == title;
    assert s[k + 3..|s| - 2] == text;
  }

  /** Whatever the column, the template is invertible: the inserted text
      gives back the kind, title and answer it was built from, and it opens with a blank line
      exactly when the column is not 0. */
  lemma CalloutRoundTrip(column: nat, kind: string, title: string, text: string)
    requires forall i :: 0 <= i < |kind| ==> kind[i] != ']'
    requires forall i :: 0 <= i < |title| ==> title[i] != '\n'
    ensures ParseCallout(CalloutText(column, kind, title, text)) == Some(Parsed(column != 0, kind, title, text))
  {
    var b := Block(kind, title, text);
    var s := CalloutText(column, kind, title, text);
    ParseBlockRoundTrip(kind, title, text);
    assert b[..2] == "> ";
    if column != 0 {
      assert s[..2] == "\n\n";
      assert s[2..] == b;
    } else {
      assert s == b;
      assert s[..2] != "\n\n" by { assert s[0] == '>'; }
    }
  }

  /** A block spliced in after an optional blank line begins a line when
      the blank line is omitted only at a line start; the text before and
      after it is kept. */
  lemma PaddedBlockStartsLine(pre: string, pad: string, b: string, post: string)
    requires pad == "" || pad == "\n\n"
    requires pad == "" ==> StartsLine(pre, |pre|)
    ensures var d := pre + pad + b + post;
            var p := |pre| + |pad|;
            && p + |b| <= |d|
            && StartsLine(d, p)
            && d[p..p + |b|] == b
            && d[..|pre|] == pre
            && d[p + |b|..] == post
  {
    var d := pre + pad + b + post;
    var p := |pre| + |pad|;
    if pad == "" {
      if |pre| > 0 {
        assert d[|pre| - 1] == pre[|pre| - 1];
      }
    } else {
      assert d[p - 1] == pad[1];
    }
    assert d[..|pre|] == pre;
    assert d[p..p + |b|] == b;
    assert d[p + |b|..] == post;
  }

  /** Replacing the selection with the callout text for a column that is
      0 exactly at a line start puts the block at the start of a line. */
  lemma InsertAtColumnStartsLine(e: Editor, c: nat, kind: string, title: string, text: string)
    requires ValidSelection(e)
    requires c == 0 <==> StartsLine(e.doc, From(e))
    ensures var r := ReplaceSelection(e, CalloutText(c, kind, title, text));
            var p := From(e) + (if c == 0 then 0 else 2);
            var b := Block(kind, title, text);
            && p + |b| <= |r.doc|
            && StartsLine(r.doc, p)
            && r.doc[p..p + |b|] == b
            && r.doc[..From(e)] == e.doc[..From(e)]
            && r.doc[p + |b|..] == e.doc[To(e)..]
  {
    var f := From(e);
    var b := Block(kind, title, text);
    var pad := if c == 0 then "" else "\n\n";
    var pre := e.doc[..f];
    assert StartsLine(pre, |pre|) <==> StartsLine(e.doc, f) by {
      if f > 0 { assert pre[f - 1] == e.doc[f - 1]; }
    }
    PaddedBlockStartsLine(pre, pad, b, e.doc[To(e)..]);
    assert CalloutText(c, kind, title, text) == pad + b;
  }

  /** The corrected insertion puts the callout marker at the start of a
      line, keeps the text before and after the selection, and places the
      whole block right after the optional blank line. */
  lemma CreateCalloutStartsLine(e: Editor, kind: string, title: string, text: string)
    requires ValidSelection(e)
    ensures var r := CreateCallout(e, kind, title, text);
            var p := From(e) + (if Column(e.doc, From(e)) == 0 then 0 else 2);
            var b := Block(kind, title, text);
            && p + |b| <= |r.doc|
            && StartsLine(r.doc, p)
            && r.doc[p..p + |b|] == b
            && r.doc[..From(e)] == e.doc[..From(e)]
            && r.doc[p + |b|..] == e.doc[To(e)..]
  {
    InsertAtColumnStartsLine(e, Column(e.doc, From(e)), kind, title, text);
  }

  /** When the cursor is the start of the selection (no selection, or a
      selection made backwards) the code as written inserts the same text
      as the corrected one. */
  lemma AsWrittenAgreesWhenHeadIsStart(e: Editor, kind: string, title: string, text: string)
    requires ValidSelection(e) && e.head <= e.anchor
    ensures CreateCalloutAsWritten(e, kind, title, text) == CreateCallout(e, kind, title, text)
  {
  }

  /** The code as written misplaces the callout: with "abc\n" selected
      from offset 1 to the start of the second line, the head is at
      column 0, so no blank line is added, and the marker lands after "a". */
  lemma AsWrittenMisplacesCallout(kind: string, title: string, text: string)
    ensures var e := Editor("abc\n", 1, 4);
            var r := CreateCalloutAsWritten(e, kind, title, text);
            && ValidSelection(e) && |r.doc| > 1
            && r.doc[1] == '>' && !StartsLine(r.doc, 1)
  {
    var e := Editor("abc\n", 1, 4);
    assert e.doc[3] == '\n';
    assert Column(e.doc, 4) == 0;
    var b := Block(kind, title, text);
    var r := CreateCalloutAsWritten(e, kind, title, text);
    assert e.doc[..1] == "a";
    assert e.doc[4..] == "";
    assert r.doc == "a" + b + "";
    assert b[0] == '>';
    assert r.doc[1] == b[0];
  }
}
