/** The text of the admin listing: one block per row, blocks separated by a
    blank line, and fixed placeholders for a missing contact and an empty page. */
module Render {
  import opened Wrappers
  import opened Text
  import opened Feedback

  const NO_CONTACT: string := "Не указан"
  const NO_FEEDBACK: string := "Нет отзывов."
  const ROW_SEPARATOR: string := "\n\n"

  /** `contact_info || 'Не указан'`: a null and an empty contact are both
      JavaScript-falsy and show the placeholder. */
  function ContactText(contact: Option<string>): (shown: string)
    ensures shown != ""
    ensures shown == NO_CONTACT <==> contact.None? || contact.value == "" || contact.value == NO_CONTACT
    ensures shown != NO_CONTACT ==> contact == Some(shown)
  {
    match contact
    case None => NO_CONTACT
    case Some(c) => if c == "" then NO_CONTACT else c
  }

  const ID_LABEL: string := "ID: "

  /** One row's block. `showDate` stands for JavaScript's rendering of the
      `created_at` date. */
  function RenderRow(e: Entry, showDate: int -> string): (block: string)
    ensures |block| > |ID_LABEL| && block[..|ID_LABEL|] == ID_LABEL
  {
    ID_LABEL + IntToString(e.id)
    + "\nТип: " + e.feedbackType
    + "\nОтзыв: " + e.text
    + "\nКонтакт: " + ContactText(e.contact)
    + "\nДата: " + showDate(e.createdAt)
  }

  /** `rows.map(fb => ...)`. */
  function RenderRows(rows: seq<Entry>, showDate: int -> string): (blocks: seq<string>)
    ensures |blocks| == |rows|
    ensures forall i :: 0 <= i < |rows| ==> blocks[i] == RenderRow(rows[i], showDate)
  {
    if |rows| == 0 then [] else [RenderRow(rows[0], showDate)] + RenderRows(rows[1..], showDate)
  }

  /** The reply body: the joined blocks, or the no-feedback placeholder when
      the join is empty. */
  function Body(rows: seq<Entry>, showDate: int -> string): (body: string)
    ensures body == NO_FEEDBACK <==> |rows| == 0
    ensures |rows| > 0 ==> body == Join(RenderRows(rows, showDate), ROW_SEPARATOR)
  {
    var blocks := RenderRows(rows, showDate);
    var joined := Join(blocks, ROW_SEPARATOR);
    assert |rows| > 0 ==> joined != "" && joined != NO_FEEDBACK by {
      if |rows| > 0 {
        JoinLayout(blocks, ROW_SEPARATOR, 0);
        assert joined[0..|blocks[0]|] == blocks[0];
        assert joined[0] == 'I' != NO_FEEDBACK[0];
      }
    }
    if joined == "" then NO_FEEDBACK else joined
  }

  /** On a non-empty page, row `i`'s block sits at its place in the body,
      followed by a blank line unless it is the last one. */
  lemma {:induction false} BodyBlocks(rows: seq<Entry>, showDate: int -> string, i: nat)
    requires i < |rows|
    ensures BlockAt(Body(rows, showDate), RenderRows(rows, showDate), i)
  {
    JoinedBlocks(RenderRows(rows, showDate), i);
  }

  lemma {:induction false} JoinedBlocks(blocks: seq<string>, i: nat)
    requires i < |blocks|
    ensures BlockAt(Join(blocks, ROW_SEPARATOR), blocks, i)
  {
    JoinLayout(blocks, ROW_SEPARATOR, i);
  }

  /** Block `i` of `blocks` sits at its join offset in `body`, followed by the
      separator unless it is the last block. */
  ghost predicate BlockAt(body: string, blocks: seq<string>, i: nat)
    requires i < |blocks|
  {
    var at := JoinOffset(blocks, ROW_SEPARATOR, i);
    && at + |blocks[i]| <= |body|
    && body[at..at + |blocks[i]|] == blocks[i]
    && (i + 1 < |blocks| ==>
          at + |blocks[i]| + |ROW_SEPARATOR| <= |body|
          && body[at + |blocks[i]|..at + |blocks[i]| + |ROW_SEPARATOR|] == ROW_SEPARATOR)
  }
}
