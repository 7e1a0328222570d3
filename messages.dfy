/**
 * The guestbook: the sheet rows returned by the message service are turned
 * into messages, newest first, by locating the columns through their
 * headers; the message form caps the message at 500 characters, enables
 * sending only with a non-blank name and message, and clears itself after
 * a send.
 */
module Messages {
  import opened Text

  /** A parsed message. A cell is `None` where the row has no value at the
      located column (a missing column, or a short row), as JavaScript's
      `row[idx]` is then undefined. */
  datatype Message = Message(timestamp: Option<string>, name: Option<string>, message: Option<string>)

  const MaxMessageLength := 500

  /** `header.findIndex(h => h.toLowerCase().includes(key))`, with -1 when
      no header matches. */
  function FindIndex(header: seq<string>, key: string): (r: int)
    ensures -1 <= r < |header|
    ensures r == -1 <==> forall j :: 0 <= j < |header| ==> !Contains(LowerStr(header[j]), key)
    ensures r >= 0 ==> Contains(LowerStr(header[r]), key)
    ensures r >= 0 ==> forall j :: 0 <= j < r ==> !Contains(LowerStr(header[j]), key)
  {
    if header == [] then -1
    else if Contains(LowerStr(header[0]), key) then 0
    else
      var k := FindIndex(header[1..], key);
      if k == -1 then -1 else k + 1
  }

  /** `row[idx]`: undefined for a negative or out-of-range index. */
  function Cell(row: seq<string>, idx: int): Option<string> {
    if 0 <= idx < |row| then Some(row[idx]) else None
  }

  /** The column positions located from the header row. */
  datatype Columns = Columns(name: int, message: int, time: int)

  function ColumnsOf(header: seq<string>): Columns {
    Columns(FindIndex(header, "name"), FindIndex(header, "message"), FindIndex(header, "timestamp"))
  }

  function ParseRow(row: seq<string>, cols: Columns): Message {
    Message(Cell(row, cols.time), Cell(row, cols.name), Cell(row, cols.message))
  }

  function MapRows(entries: seq<seq<string>>, cols: Columns): seq<Message> {
    if entries == [] then [] else [ParseRow(entries[0], cols)] + MapRows(entries[1..], cols)
  }

  function Reverse<T>(s: seq<T>): seq<T> {
    if s == [] then [] else Reverse(s[1..]) + [s[0]]
  }

  /** The `.then` body of `fetchMessages`: destructure the header, locate the
      columns, map every entry, reverse. With no rows at all the header is
      undefined, the code throws and the result is `None`. */
  function ParseSheet(rows: seq<seq<string>>): Option<seq<Message>> {
    if rows == [] then None
    else Some(Reverse(MapRows(rows[1..], ColumnsOf(rows[0]))))
  }

  lemma {:induction false} MapRowsSpec(entries: seq<seq<string>>, cols: Columns)
    ensures |MapRows(entries, cols)| == |entries|
    ensures forall k :: 0 <= k < |entries| ==> MapRows(entries, cols)[k] == ParseRow(entries[k], cols)
  {
    if entries != [] {
      MapRowsSpec(entries[1..], cols);
    }
  }

  lemma {:induction false} ReverseSpec<T>(s: seq<T>)
    ensures |Reverse(s)| == |s|
    ensures forall k :: 0 <= k < |s| ==> Reverse(s)[k] == s[|s| - 1 - k]
  {
    if s != [] {
      ReverseSpec(s[1..]);
    }
  }

  /** One message per row after the header, in reverse row order, each built
      from the cells at the located columns; no rows at all is a failure. */
  lemma ParseSheetSpec(rows: seq<seq<string>>)
    ensures ParseSheet(rows).None? <==> rows == []
    ensures rows != [] ==> |ParseSheet(rows).value| == |rows| - 1
    ensures rows != [] ==> forall k :: 0 <= k < |rows| - 1 ==>
      ParseSheet(rows).value[k] == ParseRow(rows[|rows| - 1 - k], ColumnsOf(rows[0]))
  {
    if rows != [] {
      var cols := ColumnsOf(rows[0]);
      MapRowsSpec(rows[1..], cols);
      ReverseSpec(MapRows(rows[1..], cols));
    }
  }

  /** Reversing twice gives back the sheet order. */
  lemma {:induction false} ReverseReverse<T>(s: seq<T>)
    ensures Reverse(Reverse(s)) == s
  {
    ReverseSpec(s);
    ReverseSpec(Reverse(s));
  }

  /** The `Messages` component: the parsed list and the loading flag that
      the wall display receives. */
  class Board {
    var messages: seq<Message>
    var loading: bool

    constructor ()
      ensures messages == [] && !loading
    {
      messages := [];
      loading := false;
    }

    /** `fetchMessages`. `response` is the decoded `GoogleSheetData`, or
        `None` when the request or the JSON decoding failed. On any failure
        the list is left as it was; loading ends either way. */
    method FetchMessages(response: Option<seq<seq<string>>>)
      modifies this
      ensures !loading
      ensures response.Some? && ParseSheet(response.value).Some? ==> messages == ParseSheet(response.value).value
      ensures response.None? || response.value == [] ==> messages == old(messages)
    {
      loading := true;
      if response.Some? && response.value != [] {
        var rows := response.value;
        var header, entries := rows[0], rows[1..];
        var cols := Columns(FindIndex(header, "name"), FindIndex(header, "message"), FindIndex(header, "timestamp"));
        messages := Reverse(MapRows(entries, cols));
      }
      loading := false;
    }
  }

  /** The submit button is disabled while sending, or while the name or the
      message is blank after trimming. */
  function SubmitDisabled(isSubmitting: bool, name: string, message: string): (disabled: bool)
    ensures disabled <==> isSubmitting || IsBlank(name) || IsBlank(message)
  {
    isSubmitting || Trim(name) == "" || Trim(message) == ""
  }

  /** The fields sent to the form service. */
  datatype Submission = Submission(name: string, message: string)

  /** The `MessageForm` component state. */
  class MessageForm {
    var nameValue: string
    var messageValue: string
    var isSubmitting: bool
    var isSubmitted: bool

    ghost predicate Valid()
      reads this
    {
      |messageValue| <= MaxMessageLength
    }

    constructor ()
      ensures Valid()
      ensures nameValue == "" && messageValue == "" && !isSubmitting && !isSubmitted
    {
      nameValue, messageValue := "", "";
      isSubmitting, isSubmitted := false, false;
    }

    /** The name input's change handler. */
    method EditName(v: string)
      requires Valid()
      modifies this`nameValue
      ensures Valid()
      ensures nameValue == v
    {
      nameValue := v;
    }

    /** The message input's change handler: an edit beyond 500 characters is
        dropped and the value stays as it was. */
    method EditMessage(v: string)
      requires Valid()
      modifies this`messageValue
      ensures Valid()
      ensures |v| <= MaxMessageLength ==> messageValue == v
      ensures |v| > MaxMessageLength ==> messageValue == old(messageValue)
    {
      if |v| <= 500 {
        messageValue := v;
      }
    }

    function CanSubmit(): (ok: bool)
      reads this
      ensures ok <==> !SubmitDisabled(isSubmitting, nameValue, messageValue)
    {
      !(isSubmitting || Trim(nameValue) == "" || Trim(messageValue) == "")
    }

    /** `handleSubmit`, reachable only through the enabled button. `sendOk`
        is whether the POST settled without a network error. On success the
        submitted flag is raised and both inputs are cleared; on failure the
        inputs are kept. Either way sending ends. */
    method Submit(sendOk: bool) returns (sent: Submission)
      requires Valid() && CanSubmit()
      modifies this
      ensures Valid()
      ensures sent == Submission(old(nameValue), old(messageValue))
      ensures !isSubmitting
      ensures sendOk ==> isSubmitted && nameValue == "" && messageValue == ""
      ensures !sendOk ==> isSubmitted == old(isSubmitted)
                          && nameValue == old(nameValue) && messageValue == old(messageValue)
    {
      isSubmitting := true;
      sent := Submission(nameValue, messageValue);
      if sendOk {
        isSubmitted := true;
        nameValue := "";
        messageValue := "";
      }
      isSubmitting := false;
    }

    /** The timer that ends the "submitted" animation. */
    method SubmittedAnimationDone()
      modifies this`isSubmitted
      ensures !isSubmitted
    {
      isSubmitted := false;
    }
  }
}
