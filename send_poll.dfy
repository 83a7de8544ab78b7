/** Sending the poll (src/composables/useSendPoll.ts): which items are
    selected, the two validation steps, the request built from the selection,
    the state the backend's reply leads to, and the preview text. */
module SendPoll {
  import opened Wrappers
  import opened Text
  import opened PollUtils

  const SELECTION_MESSAGE: string := "S\U{E9}lectionnez au moins 2 \U{E9}l\U{E9}ments \U{E0} inclure dans le sondage."
  const QUESTION_MESSAGE: string := "La question est obligatoire."
  const UNKNOWN_TELEGRAM_ERROR: string := "Erreur Telegram inconnue"
  const NETWORK_ERROR: string := "Erreur r\U{E9}seau"

  /** An item goes into the poll when it is checked and its title is not blank. */
  predicate Selected(item: PollItem) {
    item.checked && Trim(item.title) != ""
  }

  /** `checkedItems`: the selected items, in list order. */
  function CheckedItems(items: seq<PollItem>): (r: seq<PollItem>)
    ensures |r| <= |items|
  {
    if items == [] then []
    else (if Selected(items[0]) then [items[0]] else []) + CheckedItems(items[1..])
  }

  /** The selected items are exactly the checked items with a non-blank title. */
  lemma {:induction false} CheckedItemsMembers(items: seq<PollItem>)
    ensures forall x :: x in CheckedItems(items) <==> x in items && Selected(x)
  {
    if items != [] {
      CheckedItemsMembers(items[1..]);
      assert items == [items[0]] + items[1..];
    }
  }

  /** The filter distributes over concatenation, so it keeps the list order. */
  lemma {:induction false} CheckedItemsAppend(a: seq<PollItem>, b: seq<PollItem>)
    ensures CheckedItems(a + b) == CheckedItems(a) + CheckedItems(b)
  {
    if a != [] {
      assert (a + b)[1..] == a[1..] + b;
      CheckedItemsAppend(a[1..], b);
    } else {
      assert a + b == b;
    }
  }

  /** A list whose every item is selected is kept whole. */
  lemma {:induction false} AllSelectedKept(items: seq<PollItem>)
    requires forall i :: 0 <= i < |items| ==> Selected(items[i])
    ensures CheckedItems(items) == items
  {
    if items != [] {
      var rest := items[1..];
      AllSelectedKept(rest);
      assert CheckedItems(items) == [items[0]] + CheckedItems(rest);
      assert items == [items[0]] + rest;
    }
  }

  /** A list with no selected item gives nothing. */
  lemma {:induction false} NoneSelectedDropped(items: seq<PollItem>)
    requires forall i :: 0 <= i < |items| ==> !Selected(items[i])
    ensures CheckedItems(items) == []
  {
    if items != [] {
      var rest := items[1..];
      NoneSelectedDropped(rest);
      assert CheckedItems(items) == CheckedItems(rest);
    }
  }

  /** `selected.map(buildOption)`. */
  function Options(selected: seq<PollItem>): (r: seq<string>)
    ensures |r| == |selected|
    ensures forall i :: 0 <= i < |r| ==> r[i] == BuildOption(selected[i])
  {
    seq(|selected|, i requires 0 <= i < |selected| => BuildOption(selected[i]))
  }

  /** The JSON body posted to the backend. */
  datatype SendRequest = SendRequest(chatId: string, question: string, options: seq<string>, isAnonymous: bool, allowsMultipleAnswers: bool)

  /** The checks `sendPoll` makes before posting: first at least two
      selected items, then a non-blank question; otherwise the request. */
  function ValidatePoll(chatId: string, question: string, items: seq<PollItem>): (r: Result<SendRequest, string>)
    ensures r.Failure? ==> r.error == SELECTION_MESSAGE || r.error == QUESTION_MESSAGE
    ensures r.Failure? && r.error == SELECTION_MESSAGE <==> |CheckedItems(items)| < 2
    ensures r.Failure? && r.error == QUESTION_MESSAGE <==> |CheckedItems(items)| >= 2 && Trim(question) == ""
    ensures r.Success? ==>
              r.value.chatId == chatId && r.value.question == Trim(question) && r.value.question != "" &&
              |r.value.options| == |CheckedItems(items)| >= 2 &&
              (forall i :: 0 <= i < |r.value.options| ==> r.value.options[i] == BuildOption(CheckedItems(items)[i])) &&
              !r.value.isAnonymous && r.value.allowsMultipleAnswers
  {
    var selected := CheckedItems(items);
    if |selected| < 2 then Failure(SELECTION_MESSAGE)
    else if Trim(question) == "" then Failure(QUESTION_MESSAGE)
    else Success(SendRequest(chatId, Trim(question), Options(selected), false, true))
  }

  /** The selection check comes first: with fewer than two selected items the
      question does not matter, and neither do unselected items. */
  lemma SelectionCheckedFirst(chatId: string, q: string, q': string, items: seq<PollItem>, extra: seq<PollItem>)
    requires |CheckedItems(items)| < 2
    requires forall i :: 0 <= i < |extra| ==> !Selected(extra[i])
    ensures ValidatePoll(chatId, q, items + extra) == ValidatePoll(chatId, q', items) == Failure(SELECTION_MESSAGE)
  {
    CheckedItemsAppend(items, extra);
    NoneSelectedDropped(extra);
  }

  /** The preview copied to the clipboard: the trimmed question, an empty
      line, then one option per line. */
  function PreviewText(question: string, items: seq<PollItem>): string {
    Join([Trim(question), ""] + Options(CheckedItems(items)), "\n")
  }

  lemma {:induction false} JoinCons(x: string, rest: seq<string>, sep: string)
    requires rest != []
    ensures Join([x] + rest, sep) == x + sep + Join(rest, sep)
  {
    assert ([x] + rest)[1..] == rest;
  }

  /** The lines joined under a question and a blank line. */
  lemma JoinUnderHeading(q: string, options: seq<string>)
    ensures Join([q, ""] + options, "\n") ==
              if options == [] then q + "\n" else q + "\n" + "\n" + Join(options, "\n")
  {
    JoinCons(q, [""] + options, "\n");
    assert ([q, ""] + options) == [q] + ([""] + options);
    if options != [] {
      JoinCons("", options, "\n");
    } else {
      assert [""] + options == [""];
    }
  }

  /** The preview is the question, a blank line and the options; with no
      selected item it is the question followed by one newline. */
  lemma PreviewTextLayout(question: string, items: seq<PollItem>)
    ensures var options := Options(CheckedItems(items));
      PreviewText(question, items) ==
        if options == [] then Trim(question) + "\n"
        else Trim(question) + "\n" + "\n" + Join(options, "\n")
  {
    JoinUnderHeading(Trim(question), Options(CheckedItems(items)));
  }

  /** `sendState`. */
  datatype SendState = Idle | Loading | Sent | SendFailed

  /** What came back for the posted request: an exception (with its message
      when it is an `Error`), or the decoded reply with its `ok` flag and
      optional `error` text. */
  datatype BackendReply = Threw(message: Option<string>) | Replied(ok: bool, error: Option<string>)

  /** The state a reply leads to, and the error text it writes: an ok reply
      writes none, so the text already there stays. */
  function ReplyOutcome(reply: BackendReply): (r: (SendState, Option<string>))
    ensures r.0 == Sent <==> reply.Replied? && reply.ok
    ensures r.0 != Sent ==> r.0 == SendFailed
    ensures r.0 == Sent <==> r.1 == None
    ensures reply.Replied? && !reply.ok ==> r.1 == Some(reply.error.GetOr(UNKNOWN_TELEGRAM_ERROR))
    ensures reply.Threw? ==> r.1 == Some(reply.message.GetOr(NETWORK_ERROR))
  {
    match reply
    case Threw(m) => (SendFailed, Some(m.GetOr(NETWORK_ERROR)))
    case Replied(ok, e) => if ok then (Sent, None) else (SendFailed, Some(e.GetOr(UNKNOWN_TELEGRAM_ERROR)))
  }

  /** The state of one `useSendPoll` instance. */
  class PollSender {
    const chatId: string
    var sendState: SendState
    var sendError: string

    constructor (chatId: string)
      ensures this.chatId == chatId && sendState == Idle && sendError == ""
    {
      this.chatId := chatId;
      sendState := Idle;
      sendError := "";
    }

    /** The synchronous part of `sendPoll`: a failed check sets the error
        state and its message and posts nothing; otherwise the state becomes
        loading, the error is cleared, and the request to post is returned. */
    method BeginSend(question: string, items: seq<PollItem>) returns (request: Option<SendRequest>)
      modifies this
      ensures var v := ValidatePoll(chatId, question, items);
        match v
        case Failure(message) => request == None && sendState == SendFailed && sendError == message
        case Success(req) => request == Some(req) && sendState == Loading && sendError == ""
    {
      var selected := CheckedItems(items);
      if |selected| < 2 {
        sendError := SELECTION_MESSAGE;
        sendState := SendFailed;
        return None;
      }
      if Trim(question) == "" {
        sendError := QUESTION_MESSAGE;
        sendState := SendFailed;
        return None;
      }
      sendState := Loading;
      sendError := "";
      request := Some(SendRequest(chatId, Trim(question), Options(selected), false, true));
    }

    /** The part of `sendPoll` after the request settles. Nothing guards
        against a second `sendPoll` in between: whatever state and error it
        left, the reply sets the state, and an ok reply keeps the error text. */
    method CompleteSend(reply: BackendReply)
      modifies this
      ensures sendState == ReplyOutcome(reply).0
      ensures sendError == ReplyOutcome(reply).1.GetOr(old(sendError))
    {
      match reply {
        case Threw(m) =>
          sendError := m.GetOr(NETWORK_ERROR);
          sendState := SendFailed;
        case Replied(ok, e) =>
          if !ok {
            sendError := e.GetOr(UNKNOWN_TELEGRAM_ERROR);
            sendState := SendFailed;
          } else {
            sendState := Sent;
          }
      }
    }
  }

  /** Two overlapping `sendPoll` calls: the second fails the selection check
      while the first is in flight, then the first is answered ok. The state
      ends as sent, yet the selection message of the second call stays. */
  method OverlappingSends(chatId: string, question: string, items: seq<PollItem>, reply: BackendReply)
    returns (state: SendState, error: string)
    requires ValidatePoll(chatId, question, items).Success?
    requires reply.Replied? && reply.ok
    ensures state == Sent && error == SELECTION_MESSAGE
  {
    var sender := new PollSender(chatId);
    var first := sender.BeginSend(question, items);
    var second := sender.BeginSend(question, []);
    sender.CompleteSend(reply);
    state, error := sender.sendState, sender.sendError;
  }
}
