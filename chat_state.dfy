/** The chat panel's module-level state in public/app.js: the messages read from the
    session log (`messageHistory`), the optimistic messages sent from the dashboard and
    not yet seen in the log (`pendingMessages`), and what `renderMessages` last drew.
    `refreshLogs` and `sendChatMessage` update it. */
module ChatState {
  import opened JsValues
  import opened SessionLog
  import opened RenderFilter

  /** The server contents as `refreshLogs` joins them: `newMessages.map(m => m.content).join('|')`. */
  function ServerContent(history: seq<Message>): string
  {
    Join(ContentPieces(history), "|")
  }

  /** What `join` makes of each message's content. */
  function ContentPieces(history: seq<Message>): (r: seq<string>)
    ensures |r| == |history|
    ensures forall i :: 0 <= i < |history| ==> r[i] == JoinPiece(history[i].content)
  {
    seq(|history|, i requires 0 <= i < |history| => JoinPiece(history[i].content))
  }

  /** Whether the server already shows the pending message `p`: its content occurs
      anywhere in the joined server contents. */
  predicate Confirmed(server: string, p: Message)
  {
    Contains(server, ToStr(p.content))
  }

  /** The reconciliation filter: the pending messages the server does not show yet. */
  function KeepUnconfirmed(pending: seq<Message>, server: string): (r: seq<Message>)
    ensures |r| <= |pending|
  {
    if pending == [] then []
    else
      var rest := KeepUnconfirmed(pending[1..], server);
      if Confirmed(server, pending[0]) then rest else [pending[0]] + rest
  }

  /** A pending message stays exactly when the server does not show it. */
  lemma {:induction false} KeepUnconfirmedMembers(pending: seq<Message>, server: string)
    ensures forall p :: p in KeepUnconfirmed(pending, server) <==> p in pending && !Confirmed(server, p)
  {
    if pending != [] {
      KeepUnconfirmedMembers(pending[1..], server);
      assert forall p :: p in pending <==> p == pending[0] || p in pending[1..];
    }
  }

  /** The reconciliation keeps the order: filtering `a + b` filters `a`, then `b`. */
  lemma {:induction false} KeepUnconfirmedConcat(a: seq<Message>, b: seq<Message>, server: string)
    ensures KeepUnconfirmed(a + b, server) == KeepUnconfirmed(a, server) + KeepUnconfirmed(b, server)
  {
    if a == [] {
      assert a + b == b;
    } else {
      assert (a + b)[0] == a[0];
      assert (a + b)[1..] == a[1..] + b;
      KeepUnconfirmedConcat(a[1..], b, server);
    }
  }

  /** An unconfirmed pending message is kept as often as it occurs; a confirmed one
      not at all. */
  lemma {:induction false} KeepUnconfirmedCount(pending: seq<Message>, server: string, p: Message)
    ensures multiset(KeepUnconfirmed(pending, server))[p] == if Confirmed(server, p) then 0 else multiset(pending)[p]
  {
    if pending != [] {
      KeepUnconfirmedCount(pending[1..], server, p);
      assert pending == [pending[0]] + pending[1..];
      assert multiset(pending) == multiset([pending[0]]) + multiset(pending[1..]);
    }
  }

  /** The filter on a send failure: every entry whose id is `id` goes. */
  function WithoutId(pending: seq<Message>, id: Value): (r: seq<Message>)
    ensures |r| <= |pending|
  {
    if pending == [] then []
    else
      var rest := WithoutId(pending[1..], id);
      if pending[0].id == id then rest else [pending[0]] + rest
  }

  /** The failure filter keeps exactly the entries with another id. */
  lemma {:induction false} WithoutIdMembers(pending: seq<Message>, id: Value)
    ensures forall p :: p in WithoutId(pending, id) <==> p in pending && p.id != id
  {
    if pending != [] {
      WithoutIdMembers(pending[1..], id);
      assert forall p :: p in pending <==> p == pending[0] || p in pending[1..];
    }
  }

  /** `join` puts every element somewhere in its result. */
  lemma {:induction false} JoinHas(xs: seq<string>, sep: string, i: nat) returns (off: nat)
    requires i < |xs|
    ensures off + |xs[i]| <= |Join(xs, sep)|
    ensures Join(xs, sep)[off..off + |xs[i]|] == xs[i]
    decreases i
  {
    var whole := Join(xs, sep);
    if i == 0 {
      off := 0;
      if |xs| > 1 {
        assert whole == xs[0] + (sep + Join(xs[1..], sep));
      }
    } else {
      var o := JoinHas(xs[1..], sep, i - 1);
      var tail := Join(xs[1..], sep);
      assert whole == (xs[0] + sep) + tail;
      off := |xs[0]| + |sep| + o;
      assert whole[off..off + |xs[i]|] == tail[o..o + |xs[i]|];
    }
  }

  /** A pending message whose content a server message has word for word is dropped. */
  lemma ConfirmedDropped(history: seq<Message>, pending: seq<Message>, k: nat, c: string)
    requires k < |history| && history[k].content == Str(c)
    ensures forall p :: p in pending && p.content == Str(c) ==> p !in KeepUnconfirmed(pending, ServerContent(history))
  {
    var pieces := ContentPieces(history);
    assert ToStr(Str(c)) == c;
    assert pieces[k] == JoinPiece(Str(c)) == c;
    var off := JoinHas(pieces, "|", k);
    ContainsAt(ServerContent(history), c, off);
    KeepUnconfirmedMembers(pending, ServerContent(history));
  }

  /** Being contained is enough: a pending "ok" is taken as confirmed by a server
      message "looks ok", although the server never showed it. */
  lemma SubstringConfirms()
    ensures var history := [Message(Str("1"), "assistant", Str("looks ok"), Str("t"))];
      var p := Message(Str("pending-1"), "user", Str("ok"), Str("t"));
      KeepUnconfirmed([p], ServerContent(history)) == []
  {
    var history := [Message(Str("1"), "assistant", Str("looks ok"), Str("t"))];
    assert ContentPieces(history) == ["looks ok"];
    ContainsAt("looks ok", "ok", 6);
  }

  /** The failure filter keeps the order: filtering `a + b` filters `a`, then `b`. */
  lemma {:induction false} WithoutIdConcat(a: seq<Message>, b: seq<Message>, id: Value)
    ensures WithoutId(a + b, id) == WithoutId(a, id) + WithoutId(b, id)
  {
    if a == [] {
      assert a + b == b;
    } else {
      assert (a + b)[0] == a[0];
      assert (a + b)[1..] == a[1..] + b;
      WithoutIdConcat(a[1..], b, id);
    }
  }

  /** The failure filter keeps every entry with another id as often as it occurs. */
  lemma {:induction false} WithoutIdCount(pending: seq<Message>, id: Value, p: Message)
    ensures multiset(WithoutId(pending, id))[p] == if p.id == id then 0 else multiset(pending)[p]
  {
    if pending != [] {
      WithoutIdCount(pending[1..], id, p);
      assert pending == [pending[0]] + pending[1..];
      assert multiset(pending) == multiset([pending[0]]) + multiset(pending[1..]);
    }
  }

  lemma WithoutIdCons(h: Message, t: seq<Message>, id: Value)
    ensures WithoutId([h] + t, id) == (if h.id == id then [] else [h]) + WithoutId(t, id)
  {
    assert ([h] + t)[1..] == t;
  }

  /** With ids unique, the failure filter removes exactly the one entry and keeps the
      others in order. */
  lemma {:induction false} WithoutUniqueId(pending: seq<Message>, k: nat)
    requires k < |pending|
    requires forall j :: 0 <= j < |pending| && j != k ==> pending[j].id != pending[k].id
    ensures WithoutId(pending, pending[k].id) == pending[..k] + pending[k + 1..]
    decreases k
  {
    var id := pending[k].id;
    var h := pending[0];
    var tail := pending[1..];
    assert pending == [h] + tail;
    WithoutIdCons(h, tail, id);
    if k == 0 {
      forall j | 0 <= j < |tail| ensures tail[j].id != id {
        assert tail[j] == pending[j + 1];
      }
      WithoutAbsentId(tail, id);
    } else {
      forall j | 0 <= j < |tail| && j != k - 1 ensures tail[j].id != tail[k - 1].id {
        assert tail[j] == pending[j + 1];
      }
      assert tail[k - 1] == pending[k];
      WithoutUniqueId(tail, k - 1);
      assert pending[..k] == [h] + tail[..k - 1];
      assert pending[k + 1..] == tail[k..];
    }
  }

  /** Removing a freshly pushed entry by its id, which no earlier entry has, gives back
      the list from before the push. */
  lemma WithoutFreshId(pending: seq<Message>, m: Message)
    requires forall p :: p in pending ==> p.id != m.id
    ensures WithoutId(pending + [m], m.id) == pending
  {
    var all := pending + [m];
    forall j | 0 <= j < |all| && j != |pending| ensures all[j].id != all[|pending|].id {
      assert all[j] in pending;
    }
    WithoutUniqueId(all, |pending|);
    assert all[..|pending|] == pending;
  }

  /** An id no entry has removes nothing. */
  lemma {:induction false} WithoutAbsentId(pending: seq<Message>, id: Value)
    requires forall j :: 0 <= j < |pending| ==> pending[j].id != id
    ensures WithoutId(pending, id) == pending
  {
    if pending != [] {
      WithoutAbsentId(pending[1..], id);
    }
  }

  /** The optimistic entry `sendChatMessage` pushes for a message typed at `nowMs`: a
      user message with string content and a string id, as `ChatView.Valid` asks. */
  function PendingMessage(message: string, nowMs: int, nowIso: string): (r: Message)
    ensures r.role == "user" && r.content == Str(message) && r.id.Str? && r.timestamp == Str(nowIso)
  {
    Message(Str("pending-" + IntToString(nowMs)), "user", Str(message), Str(nowIso))
  }

  /** `m.content?.substring(0, 50)` in `renderMessages` is evaluated for every message
      before anything is drawn. It works on a string and short-circuits on `null` and
      `undefined`; any other content has no `substring` method, and the call throws a
      TypeError. */
  predicate Substringable(content: Value)
  {
    content.Str? || content.Null? || content.Undefined?
  }

  /** `renderMessages(ms)` throws before it draws anything: some content is not
      substringable. */
  predicate RenderThrows(ms: seq<Message>)
  {
    ms != [] && (!Substringable(ms[0].content) || RenderThrows(ms[1..]))
  }

  lemma {:induction false} RenderThrowsAt(ms: seq<Message>)
    ensures RenderThrows(ms) <==> exists i :: 0 <= i < |ms| && !Substringable(ms[i].content)
  {
    if ms != [] {
      RenderThrowsAt(ms[1..]);
      assert forall i :: 1 <= i < |ms| ==> ms[i] == ms[1..][i - 1];
      if RenderThrows(ms[1..]) {
        var i :| 0 <= i < |ms[1..]| && !Substringable(ms[1..][i].content);
        assert ms[i + 1] == ms[1..][i];
      }
    }
  }

  /** The message of that TypeError, as V8 words it. */
  const RenderError := "m.content?.substring is not a function"

  /** Pending messages hold string contents, so whether the panel can be drawn depends
      on the history alone. */
  lemma PendingRenderSafe(history: seq<Message>, pending: seq<Message>)
    requires forall p :: p in pending ==> p.content.Str?
    ensures RenderThrows(history + pending) <==> RenderThrows(history)
  {
    var all := history + pending;
    RenderThrowsAt(all);
    RenderThrowsAt(history);
    forall i | |history| <= i < |all|
      ensures Substringable(all[i].content)
    {
      assert all[i] == pending[i - |history|];
    }
    forall i | 0 <= i < |history|
      ensures all[i] == history[i]
    {
    }
  }

  /** A `{text: [...]}` record is shown as a system message whose content is the array
      itself, and a history holding it cannot be drawn. */
  lemma TextArrayBreaksRender(line: string, parse: string -> Option<Value>, now: string)
    requires !IsBlank(line)
    requires parse(line) == Some(Obj(map["text" := Arr([Str("hello")])]))
    ensures Emitted([line], parse, now) == [Message(Undefined, "system", Arr([Str("hello")]), Undefined)]
    ensures RenderThrows(Take(Emitted([line], parse, now), 50))
  {
    var obj := parse(line).value;
    assert Get(obj, "id") == Undefined && Get(obj, "type") == Undefined && Get(obj, "role") == Undefined;
    assert Get(obj, "text") == Arr([Str("hello")]);
    assert !IsGatewayNotice(Arr([Str("hello")]));
    assert RecordMessage(obj, now) == Some(Message(Undefined, "system", Arr([Str("hello")]), Undefined));
    TakeLine([line], 0, parse, {}, now);
    assert [line][0..] == [line] && [line][1..] == [];
    var e := Emitted([line], parse, now);
    assert !Substringable(Take(e, 50)[0].content);
    RenderThrowsAt(Take(e, 50));
  }

  /** What the chat panel shows: a rendered message list, or the error from a failed
      `/api/logs` request or from a render that threw. */
  datatype Display = Shown(messages: seq<Message>) | LoadError(reason: string)

  /** The `/api/logs` reply as `refreshLogs` reads it, or the message of the request's
      failure. */
  datatype LogsReply = LogsReply(sessionFile: Value, sessionLines: seq<string>)
  datatype Response<T> = Ok(value: T) | Failure(message: string)

  class ChatView {
    var messageHistory: seq<Message>
    var pendingMessages: seq<Message>
    var currentSessionFile: Value
    var display: Display
    var chatStatus: string
    /** `chatSendBtn.disabled`. */
    var sendDisabled: bool

    /** Every pending message is a user message the dashboard typed. */
    predicate Valid()
      reads this
    {
      forall p :: p in pendingMessages ==> p.role == "user" && p.content.Str? && p.id.Str?
    }

    constructor ()
      ensures Valid()
      ensures messageHistory == [] && pendingMessages == [] && currentSessionFile == Null
      ensures display == Shown([]) && chatStatus == "" && !sendDisabled
    {
      messageHistory := [];
      pendingMessages := [];
      currentSessionFile := Null;
      display := Shown([]);
      chatStatus := "";
      sendDisabled := false;
    }

    /** `renderMessages([...messageHistory, ...pendingMessages])`: the panel shows the
        filtered list, unless a content makes the call throw first, which leaves the
        panel as it was. */
    method Render() returns (threw: bool)
      modifies this
      ensures threw == RenderThrows(messageHistory + pendingMessages)
      ensures display == if threw then old(display) else Shown(Kept(messageHistory + pendingMessages))
      ensures messageHistory == old(messageHistory) && pendingMessages == old(pendingMessages)
      ensures currentSessionFile == old(currentSessionFile) && chatStatus == old(chatStatus)
      ensures sendDisabled == old(sendDisabled)
    {
      var all := messageHistory + pendingMessages;
      threw := RenderThrows(all);
      if !threw {
        var filtered := FilterMessages(all);
        display := Shown(filtered);
      }
    }

    /** `refreshLogs`: on a reply, the session file is recorded, the history becomes
        the first 50 messages of the session lines the server sent (its tail of the
        log), the pending messages the server now shows are dropped, and the panel is
        redrawn, or shows the render's error when the new history cannot be drawn; on
        a failure only the panel changes, to the error. */
    method RefreshLogs(reply: Response<LogsReply>, parse: string -> Option<Value>, now: string)
      modifies this
      requires Valid()
      ensures Valid()
      ensures chatStatus == old(chatStatus) && sendDisabled == old(sendDisabled)
      ensures reply.Failure? ==>
        messageHistory == old(messageHistory) && pendingMessages == old(pendingMessages)
        && currentSessionFile == old(currentSessionFile) && display == LoadError(reply.message)
      ensures reply.Ok? ==>
        currentSessionFile == reply.value.sessionFile
        && messageHistory == Take(Emitted(reply.value.sessionLines, parse, now), 50)
        && pendingMessages == KeepUnconfirmed(old(pendingMessages), ServerContent(messageHistory))
        && display == if RenderThrows(messageHistory) then LoadError(RenderError)
                      else Shown(Kept(messageHistory + pendingMessages))
    {
      match reply
      case Failure(message) =>
        display := LoadError(message);
      case Ok(data) =>
        currentSessionFile := data.sessionFile;
        var newMessages := ParseSessionLines(data.sessionLines, 50, parse, now);
        messageHistory := newMessages;
        var serverContent := ServerContent(newMessages);
        KeepUnconfirmedMembers(pendingMessages, serverContent);
        pendingMessages := KeepUnconfirmed(pendingMessages, serverContent);
        PendingRenderSafe(messageHistory, pendingMessages);
        var threw := Render();
        if threw {
          display := LoadError(RenderError);
        }
    }

    /** The `catch` of `sendChatMessage`: the pending entries with the temporary id go,
        and the panel, which could be drawn with them, is drawn without them. */
    method Withdraw(tempId: Value)
      modifies this
      requires Valid() && !RenderThrows(messageHistory + pendingMessages)
      ensures Valid()
      ensures pendingMessages == WithoutId(old(pendingMessages), tempId)
      ensures display == Shown(Kept(messageHistory + pendingMessages))
      ensures messageHistory == old(messageHistory) && currentSessionFile == old(currentSessionFile)
      ensures chatStatus == old(chatStatus) && sendDisabled == old(sendDisabled)
    {
      PendingRenderSafe(messageHistory, pendingMessages);
      WithoutIdMembers(pendingMessages, tempId);
      pendingMessages := WithoutId(pendingMessages, tempId);
      PendingRenderSafe(messageHistory, pendingMessages);
      var threw := Render();
    }

    /** The `try` and `finally` of `sendChatMessage`, entered once the pending entry
        `tempId` is drawn: the log is re-read when the request `sent` succeeded, the
        entry is withdrawn when it failed, and the button is enabled again. */
    method Deliver(tempId: Value, sent: Response<()>, logsAfter: Response<LogsReply>,
                   parse: string -> Option<Value>, now: string)
      modifies this
      requires Valid() && !RenderThrows(messageHistory + pendingMessages)
      ensures Valid() && !sendDisabled
      ensures sent.Failure? ==>
        chatStatus == "Failed"
        && messageHistory == old(messageHistory) && currentSessionFile == old(currentSessionFile)
        && pendingMessages == WithoutId(old(pendingMessages), tempId)
        && display == Shown(Kept(messageHistory + pendingMessages))
      ensures sent.Ok? ==>
        chatStatus == "Ready"
        && (logsAfter.Ok? ==>
          currentSessionFile == logsAfter.value.sessionFile
          && messageHistory == Take(Emitted(logsAfter.value.sessionLines, parse, now), 50)
          && pendingMessages == KeepUnconfirmed(old(pendingMessages), ServerContent(messageHistory))
          && display == if RenderThrows(messageHistory) then LoadError(RenderError)
                        else Shown(Kept(messageHistory + pendingMessages)))
        && (logsAfter.Failure? ==>
          messageHistory == old(messageHistory) && currentSessionFile == old(currentSessionFile)
          && pendingMessages == old(pendingMessages) && display == LoadError(logsAfter.message))
    {
      match sent {
        case Ok(_) =>
          chatStatus := "Sent";
          RefreshLogs(logsAfter, parse, now);
          chatStatus := "Ready";
        case Failure(_) =>
          chatStatus := "Failed";
          Withdraw(tempId);
      }
      sendDisabled := false;
    }

    /** `sendChatMessage`: a blank input does nothing. Otherwise the send button is
        disabled and the trimmed message is pushed as pending and drawn at once. When
        the history cannot be drawn, that render throws outside the `try`: nothing is
        posted, and the status and the button stay as they are. Otherwise the log is
        re-read (the send succeeded) or the pending entry with this message's
        temporary id is removed again (it failed), and the button is enabled. */
    method SendChatMessage(input: string, nowMs: int, nowIso: string, sent: Response<()>,
                           logsAfter: Response<LogsReply>, parse: string -> Option<Value>, now: string)
      returns (threw: bool)
      modifies this
      requires Valid()
      ensures Valid()
      ensures threw <==> Trim(input) != "" && RenderThrows(old(messageHistory))
      ensures Trim(input) == "" ==>
        messageHistory == old(messageHistory) && pendingMessages == old(pendingMessages)
        && currentSessionFile == old(currentSessionFile) && display == old(display)
        && chatStatus == old(chatStatus) && sendDisabled == old(sendDisabled)
      ensures threw ==>
        chatStatus == "Sending..." && sendDisabled
        && messageHistory == old(messageHistory) && currentSessionFile == old(currentSessionFile)
        && pendingMessages == old(pendingMessages) + [PendingMessage(Trim(input), nowMs, nowIso)]
        && display == old(display)
      ensures Trim(input) != "" && !threw && sent.Failure? ==>
        chatStatus == "Failed" && !sendDisabled
        && messageHistory == old(messageHistory) && currentSessionFile == old(currentSessionFile)
        && pendingMessages == WithoutId(old(pendingMessages) + [PendingMessage(Trim(input), nowMs, nowIso)],
                                        Str("pending-" + IntToString(nowMs)))
        && display == Shown(Kept(messageHistory + pendingMessages))
      ensures Trim(input) != "" && !threw && sent.Ok? ==>
        chatStatus == "Ready" && !sendDisabled
        && (logsAfter.Ok? ==>
          currentSessionFile == logsAfter.value.sessionFile
          && messageHistory == Take(Emitted(logsAfter.value.sessionLines, parse, now), 50)
          && pendingMessages == KeepUnconfirmed(old(pendingMessages) + [PendingMessage(Trim(input), nowMs, nowIso)],
                                                ServerContent(messageHistory))
          && display == if RenderThrows(messageHistory) then LoadError(RenderError)
                        else Shown(Kept(messageHistory + pendingMessages)))
        && (logsAfter.Failure? ==>
          messageHistory == old(messageHistory) && currentSessionFile == old(currentSessionFile)
          && pendingMessages == old(pendingMessages) + [PendingMessage(Trim(input), nowMs, nowIso)]
          && display == LoadError(logsAfter.message))
    {
      var message := Trim(input);
      if message == "" {
        return false;
      }
      sendDisabled := true;
      chatStatus := "Sending...";
      var tempId := "pending-" + IntToString(nowMs);
      var tempMsg := PendingMessage(message, nowMs, nowIso);
      pendingMessages := pendingMessages + [tempMsg];
      PendingRenderSafe(messageHistory, pendingMessages);
      threw := Render();
      if threw {
        return;
      }
      Deliver(Str(tempId), sent, logsAfter, parse, now);
    }
  }
}
