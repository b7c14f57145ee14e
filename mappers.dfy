/**
 * The value mappers of the migration engine: ServiceNow priority and state
 * vocabularies translated to Jira's, and plain text wrapped into an Atlassian
 * Document Format (ADF) document.
 */
module Mappers {
  import opened Js

  /** The Jira priorities the migration assigns. */
  datatype Priority = Critical | High | Medium | Low | Lowest
  {
    /** The priority's name as sent in the issue payload. */
    function Name(): string
    {
      match this
      case Critical => "Critical"
      case High => "High"
      case Medium => "Medium"
      case Low => "Low"
      case Lowest => "Lowest"
    }
  }

  /** Different priorities are sent under different names. */
  lemma PriorityNamesDistinct(p: Priority, q: Priority)
    requires p != q
    ensures p.Name() != q.Name()
  {
    assert |p.Name()| != |q.Name()| || p.Name()[0] != q.Name()[0];
  }

  /** The Jira statuses the migration aims the new issue at. */
  datatype Status = Open | Pending | WorkInProgress | Done
  {
    /** The status's name, compared case-insensitively with a transition's target. */
    function Name(): string
    {
      match this
      case Open => "Open"
      case Pending => "Pending"
      case WorkInProgress => "Work in progress"
      case Done => "Done"
    }
  }

  /**
   * Different statuses have different names even when case is ignored, so a
   * transition's target matches at most one of them.
   */
  lemma StatusNamesDistinct(s: Status, t: Status)
    requires s != t
    ensures ToLower(s.Name()) != ToLower(t.Name())
  {
    assert ToLower(s.Name())[0] == LowerChar(s.Name()[0]);
    assert ToLower(t.Name())[0] == LowerChar(t.Name()[0]);
  }

  /**
   * ServiceNow priority, already turned into text, to Jira priority. The text is
   * trimmed and then compared case-sensitively with the numeric codes and the
   * named levels; anything else, the empty text included, is Medium.
   */
  function MapPriority(raw: string): (p: Priority)
    ensures p == Critical <==> Trim(raw) == "1" || Trim(raw) == "Critical"
    ensures p == High <==> Trim(raw) == "2" || Trim(raw) == "High"
    ensures p == Low <==> Trim(raw) == "4" || Trim(raw) == "Low"
    ensures p == Lowest <==> Trim(raw) == "5" || Trim(raw) == "Planning"
    ensures p == Medium <==> Trim(raw) !in {"1", "Critical", "2", "High", "4", "Low", "5", "Planning"}
  {
    var v := Trim(raw);
    if v == "1" || v == "Critical" then Critical
    else if v == "2" || v == "High" then High
    else if v == "3" || v == "Moderate" then Medium
    else if v == "4" || v == "Low" then Low
    else if v == "5" || v == "Planning" then Lowest
    else Medium
  }

  /** White space around the priority never changes the mapped priority. */
  lemma MapPriorityIgnoresPadding(ws: string, raw: string, ws': string)
    requires AllWhiteSpace(ws) && AllWhiteSpace(ws')
    ensures MapPriority(ws + raw + ws') == MapPriority(raw)
  {
    TrimIgnoresPadding(ws, raw, ws');
  }

  /**
   * ServiceNow state to Jira status. An absent or empty state is treated as
   * empty; the text is lower-cased and looked up; anything unmatched is Open.
   */
  function MapStatus(raw: Option<string>): (s: Status)
    ensures var v := ToLower(Or(raw, ""));
      && (s == Pending <==> v == "assess" || v == "root cause analysis")
      && (s == WorkInProgress <==> v == "fix in progress")
      && (s == Done <==> v == "resolved" || v == "closed")
      && (s == Open <==> v !in {"assess", "root cause analysis", "fix in progress", "resolved", "closed"})
    ensures !Truthy(raw) ==> s == Open
  {
    var v := ToLower(Or(raw, ""));
    if v == "new" then Open
    else if v == "assess" then Pending
    else if v == "root cause analysis" then Pending
    else if v == "fix in progress" then WorkInProgress
    else if v == "resolved" then Done
    else if v == "closed" then Done
    else Open
  }

  /** The state is matched case-insensitively. */
  lemma MapStatusIgnoresCase(raw: string)
    ensures MapStatus(Some(ToLower(raw))) == MapStatus(Some(raw))
  {
    ToLowerIdempotent(raw);
  }

  /** Every spelling of "new" gives Open, like the default. */
  lemma MapStatusOfNew()
    ensures MapStatus(Some("NEW")) == Open
    ensures MapStatus(Some("New")) == Open
    ensures MapStatus(Some("new")) == Open
    ensures MapStatus(None) == Open && MapStatus(Some("")) == Open
  {
  }

  /** An ADF text node. */
  datatype Inline = Text(text: string)

  /** An ADF paragraph. */
  datatype Block = Paragraph(content: seq<Inline>)

  /** An ADF document: its type is "doc", with a version and a list of blocks. */
  datatype Document = Doc(version: nat, content: seq<Block>)

  /**
   * Wraps text, possibly absent, into a version 1 document holding one
   * paragraph with one text node; absent or empty text gives an empty node.
   */
  function ToAdf(text: Option<string>): (d: Document)
    ensures d.version == 1
    ensures |d.content| == 1 && |d.content[0].content| == 1
    ensures d.content[0].content[0].text == (if Truthy(text) then text.value else "")
  {
    Doc(1, [Paragraph([Text(Or(text, ""))])])
  }
}
