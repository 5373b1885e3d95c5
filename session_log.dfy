/** `parseSessionLines` (public/app.js): one forward pass over the lines of a session
    log that keeps at most `maxMessages` chat messages, skips blank and unparseable
    lines, and skips a record whose id was seen before. `JSON.parse` is the parameter
    `parse` (None where it throws). */
module SessionLog {
  import opened JsValues
  import opened TextContent
  import opened MetadataWrapper

  /** One chat message as the dashboard renders it. */
  datatype Message = Message(id: Value, role: string, content: Value, timestamp: Value)

  predicate IsBlank(line: string)
  {
    Trim(line) == ""
  }

  /** `{type: "message", message: {role, content}}`. */
  predicate IsEnvelopeForm(obj: Value)
  {
    Get(obj, "type") == Str("message") && Truthy(Get(obj, "message"))
  }

  /** `{role, content}`. */
  predicate IsDirectForm(obj: Value)
  {
    !IsEnvelopeForm(obj) && Truthy(Get(obj, "role")) && Get(obj, "content") != Undefined
  }

  /** `{text}`. */
  predicate IsTextForm(obj: Value)
  {
    !IsEnvelopeForm(obj) && !IsDirectForm(obj) && Truthy(Get(obj, "text"))
  }

  /** The gateway notices a `{text}` record carries: `text.includes(...)` on a string is a
      substring test and on an array an element test. */
  predicate IsGatewayNotice(text: Value)
  {
    match text
    case Str(s) => Contains(s, "gateway connected") || Contains(s, "WhatsApp") || Contains(s, "Telegram")
    case Arr(xs) => Str("gateway connected") in xs || Str("WhatsApp") in xs || Str("Telegram") in xs
    case _ => false
  }

  predicate IsChatRole(role: Value)
  {
    role == Str("user") || role == Str("assistant")
  }

  /** The message a parsed record yields, before the duplicate-id check. `now` stands
      for `new Date().toISOString()`. */
  function RecordMessage(obj: Value, now: string): Option<Message>
  {
    var id := Get(obj, "id");
    if IsEnvelopeForm(obj) then
      var inner := Get(obj, "message");
      var role := if Truthy(Get(inner, "role")) then Get(inner, "role") else Str("unknown");
      var content := ExtractTextContent(Get(inner, "content"));
      var display := if role == Str("user") && content != "" then UnwrapUserText(content) else content;
      if IsChatRole(role) then Some(Message(id, role.s, Str(display), Get(obj, "timestamp"))) else None
    else if IsDirectForm(obj) then
      var role := Get(obj, "role");
      var content := ExtractTextContent(Get(obj, "content"));
      var stamp := if Truthy(Get(obj, "timestamp")) then Get(obj, "timestamp") else Str(now);
      if IsChatRole(role) then Some(Message(id, role.s, Str(content), stamp)) else None
    else if IsTextForm(obj) then
      var text := Get(obj, "text");
      // includes() exists only on strings and arrays: any other text throws and is skipped
      if (text.Str? || text.Arr?) && !IsGatewayNotice(text) then Some(Message(id, "system", text, Get(obj, "timestamp")))
      else None
    else None
  }

  /** Which records yield a message, and of which role: the message carries the
      record's id, and it is a system message exactly for the `{text}` form. */
  lemma RecordForms(obj: Value, now: string, r: Option<Message>)
    requires r == RecordMessage(obj, now)
    ensures r.Some? ==> r.value.id == Get(obj, "id")
    ensures r.Some? ==> r.value.role in {"user", "assistant", "system"}
    ensures r.Some? && r.value.role == "system" <==> r.Some? && IsTextForm(obj)
    ensures r.Some? && IsTextForm(obj) ==> r.value.content == Get(obj, "text") && !IsGatewayNotice(Get(obj, "text"))
    ensures r.Some? && r.value.role != "system" ==> r.value.content.Str?
    ensures r.Some? && IsTextForm(obj) ==> r.value.content.Str? || r.value.content.Arr?
    ensures r.Some? && IsDirectForm(obj) ==>
      r.value.timestamp == if Truthy(Get(obj, "timestamp")) then Get(obj, "timestamp") else Str(now)
    ensures r.Some? && !IsDirectForm(obj) ==> r.value.timestamp == Get(obj, "timestamp")
    ensures IsEnvelopeForm(obj) ==> (r.Some? <==> IsChatRole(Get(Get(obj, "message"), "role")))
    ensures IsDirectForm(obj) ==> (r.Some? <==> IsChatRole(Get(obj, "role")))
    ensures IsEnvelopeForm(obj) && r.Some? ==> Str(r.value.role) == Get(Get(obj, "message"), "role")
    ensures IsDirectForm(obj) && r.Some? ==> Str(r.value.role) == Get(obj, "role")
    ensures IsTextForm(obj) ==>
      (r.Some? <==> (Get(obj, "text").Str? || Get(obj, "text").Arr?) && !IsGatewayNotice(Get(obj, "text")))
    ensures !IsEnvelopeForm(obj) && !IsDirectForm(obj) && !IsTextForm(obj) ==> r.None?
  {
  }

  /** `obj.id && seenIds.has(obj.id)`. */
  predicate SeenBefore(id: Value, seen: set<Value>)
  {
    Truthy(id) && IsPrimitive(id) && id in seen
  }

  /** One non-capped loop iteration: the new set of seen ids and the message emitted. */
  function Step(line: string, parse: string -> Option<Value>, seen: set<Value>, now: string): (set<Value>, Option<Message>)
  {
    if IsBlank(line) then (seen, None)
    else match parse(line)
      case None => (seen, None)
      case Some(obj) =>
        var id := Get(obj, "id");
        if SeenBefore(id, seen) then (seen, None)
        else ((if Truthy(id) then seen + {id} else seen), RecordMessage(obj, now))
  }

  /** A step only adds ids, and the message it emits carries an id it has just recorded. */
  lemma StepRecordsId(line: string, parse: string -> Option<Value>, seen: set<Value>, now: string)
    ensures seen <= Step(line, parse, seen, now).0
    ensures var (seen', m) := Step(line, parse, seen, now);
      m.Some? && Truthy(m.value.id) ==> m.value.id in seen' && !SeenBefore(m.value.id, seen)
  {
  }

  /** A step emits only what the line's record yields. */
  lemma StepEmits(line: string, parse: string -> Option<Value>, seen: set<Value>, now: string)
    requires Step(line, parse, seen, now).1.Some?
    ensures !IsBlank(line) && parse(line).Some?
    ensures RecordMessage(parse(line).value, now) == Step(line, parse, seen, now).1
  {
  }

  /** A loop iteration seen from outside: from the ids recorded so far to the new ids
      and the message emitted, if any. */
  type StepFn = (string, set<Value>) -> (set<Value>, Option<Message>)

  /** The iteration of `parseSessionLines` for a given `JSON.parse` and clock. */
  function Pass(parse: string -> Option<Value>, now: string): StepFn
  {
    (line, seen) => Step(line, parse, seen, now)
  }

  /** The messages a step adds to the list. */
  function AsSeq(m: Option<Message>): seq<Message>
  {
    if m.Some? then [m.value] else []
  }

  /** Every message the pass emits when it is not capped. */
  function EmitFrom(lines: seq<string>, step: StepFn, seen: set<Value>): seq<Message>
  {
    if lines == [] then []
    else
      var r := step(lines[0], seen);
      AsSeq(r.1) + EmitFrom(lines[1..], step, r.0)
  }

  /** The ids recorded after the lines. */
  function SeenAfter(lines: seq<string>, step: StepFn, seen: set<Value>): set<Value>
  {
    if lines == [] then seen else SeenAfter(lines[1..], step, step(lines[0], seen).0)
  }

  /** One line of the pass that emits nothing and records nothing: blank, unparseable,
      or carrying an id seen before. */
  lemma SkipLine(lines: seq<string>, i: nat, parse: string -> Option<Value>, seen: set<Value>, now: string)
    requires i < |lines|
    requires IsBlank(lines[i]) || parse(lines[i]).None? || SeenBefore(Get(parse(lines[i]).value, "id"), seen)
    ensures EmitFrom(lines[i..], Pass(parse, now), seen) == EmitFrom(lines[i + 1..], Pass(parse, now), seen)
  {
    assert lines[i..][0] == lines[i] && lines[i..][1..] == lines[i + 1..];
  }

  /** One line of the pass whose record is taken: its id is recorded and its message,
      if any, comes first. */
  lemma TakeLine(lines: seq<string>, i: nat, parse: string -> Option<Value>, seen: set<Value>, now: string)
    requires i < |lines| && !IsBlank(lines[i]) && parse(lines[i]).Some?
    requires !SeenBefore(Get(parse(lines[i]).value, "id"), seen)
    ensures var obj := parse(lines[i]).value;
      var id := Get(obj, "id");
      EmitFrom(lines[i..], Pass(parse, now), seen)
      == AsSeq(RecordMessage(obj, now)) + EmitFrom(lines[i + 1..], Pass(parse, now), if Truthy(id) then seen + {id} else seen)
  {
    assert lines[i..][0] == lines[i] && lines[i..][1..] == lines[i + 1..];
  }

  function Emitted(lines: seq<string>, parse: string -> Option<Value>, now: string): seq<Message>
  {
    EmitFrom(lines, Pass(parse, now), {})
  }

  /** The first `n` elements, or all of them. */
  function Take<T>(s: seq<T>, n: nat): (r: seq<T>)
    ensures |r| <= n && |r| <= |s| && r == s[..|r|]
    ensures |s| <= n ==> r == s
  {
    if |s| <= n then s else s[..n]
  }

  lemma ConcatAssoc<T>(a: seq<T>, b: seq<T>, c: seq<T>)
    ensures a + (b + c) == (a + b) + c
  {
  }

  /** The pass itself, in place: `messages` and `seenIds` grow as the lines are read. */
  method ParseSessionLines(lines: seq<string>, maxMessages: nat, parse: string -> Option<Value>, now: string)
    returns (messages: seq<Message>)
    ensures |messages| <= maxMessages
    ensures messages == Take(Emitted(lines, parse, now), maxMessages)
  {
    messages := [];
    var seenIds: set<Value> := {};
    ghost var all := Emitted(lines, parse, now);
    var i := 0;
    while i < |lines|
      invariant 0 <= i <= |lines|
      invariant |messages| <= maxMessages
      invariant messages + EmitFrom(lines[i..], Pass(parse, now), seenIds) == all
    {
      var line := lines[i];
      if IsBlank(line) {
        SkipLine(lines, i, parse, seenIds, now);
      } else if |messages| >= maxMessages {
        break;
      } else {
        var parsed := parse(line);
        if parsed.None? {
          SkipLine(lines, i, parse, seenIds, now);
        } else {
          var obj := parsed.value;
          var id := Get(obj, "id");
          if SeenBefore(id, seenIds) {
            SkipLine(lines, i, parse, seenIds, now);
          } else {
            ghost var before := messages;
            TakeLine(lines, i, parse, seenIds, now);
            if Truthy(id) {
              seenIds := seenIds + {id};
            }
            var m := RecordMessage(obj, now);
            ghost var rest := EmitFrom(lines[i + 1..], Pass(parse, now), seenIds);
            if m.Some? {
              messages := messages + [m.value];
              ConcatAssoc(before, [m.value], rest);
            } else {
              assert AsSeq(m) + rest == rest;
            }
          }
        }
      }
      i := i + 1;
    }
    assert messages == all[..|messages|];
  }

  // ---- properties of the pass ----

  /** The pass over two pieces is the pass over the first, then over the second with
      the ids the first recorded. */
  lemma {:induction false} EmitConcat(a: seq<string>, b: seq<string>, step: StepFn, seen: set<Value>)
    ensures EmitFrom(a + b, step, seen) == EmitFrom(a, step, seen) + EmitFrom(b, step, SeenAfter(a, step, seen))
  {
    if a == [] {
      assert a + b == b;
    } else {
      assert (a + b)[0] == a[0];
      assert (a + b)[1..] == a[1..] + b;
      EmitConcat(a[1..], b, step, step(a[0], seen).0);
    }
  }

  /** The ids recorded over two pieces are those recorded over the second, starting from
      what the first recorded. */
  lemma {:induction false} SeenAfterConcat(a: seq<string>, b: seq<string>, step: StepFn, seen: set<Value>)
    ensures SeenAfter(a + b, step, seen) == SeenAfter(b, step, SeenAfter(a, step, seen))
  {
    if a == [] {
      assert a + b == b;
    } else {
      assert (a + b)[0] == a[0];
      assert (a + b)[1..] == a[1..] + b;
      SeenAfterConcat(a[1..], b, step, step(a[0], seen).0);
    }
  }

  /** A user record in the `{type: "message"}` form with text is shown as its text
      unwraps to. */
  lemma EnvelopeUserMessage(obj: Value, now: string, shown: string)
    requires IsEnvelopeForm(obj) && Get(Get(obj, "message"), "role") == Str("user")
    requires ExtractTextContent(Get(Get(obj, "message"), "content")) != ""
    requires UnwrapUserText(ExtractTextContent(Get(Get(obj, "message"), "content"))) == shown
    ensures RecordMessage(obj, now) == Some(Message(Get(obj, "id"), "user", Str(shown), Get(obj, "timestamp")))
  {
  }

  /** A blank or unparseable line emits nothing and records nothing. */
  lemma SilentStep(line: string, parse: string -> Option<Value>, seen: set<Value>, now: string)
    requires IsBlank(line) || parse(line).None?
    ensures EmitFrom([line], Pass(parse, now), seen) == []
    ensures SeenAfter([line], Pass(parse, now), seen) == seen
  {
    assert [line][1..] == [];
  }

  /** A line that is blank or does not parse contributes nothing, wherever it stands. */
  lemma SilentLineIgnored(a: seq<string>, line: string, b: seq<string>, maxMessages: nat, parse: string -> Option<Value>, now: string)
    requires IsBlank(line) || parse(line).None?
    ensures Emitted(a + [line] + b, parse, now) == Emitted(a + b, parse, now)
    ensures Take(Emitted(a + [line] + b, parse, now), maxMessages) == Take(Emitted(a + b, parse, now), maxMessages)
  {
    var step := Pass(parse, now);
    var s := SeenAfter(a, step, {});
    SilentStep(line, parse, s, now);
    EmitConcat(a + [line], b, step, {});
    EmitConcat(a, [line], step, {});
    SeenAfterConcat(a, [line], step, {});
    EmitConcat(a, b, step, {});
    assert EmitFrom(a + [line], step, {}) == EmitFrom(a, step, {});
    assert SeenAfter(a + [line], step, {}) == s;
  }

  /** Ids are only ever added. */
  lemma {:induction false} SeenGrows(lines: seq<string>, parse: string -> Option<Value>, seen: set<Value>, now: string)
    ensures seen <= SeenAfter(lines, Pass(parse, now), seen)
  {
    if lines != [] {
      StepRecordsId(lines[0], parse, seen, now);
      SeenGrows(lines[1..], parse, Step(lines[0], parse, seen, now).0, now);
    }
  }

  /** An emitted message's truthy primitive id had not been seen before the pass. */
  lemma {:induction false} EmittedIdsFresh(lines: seq<string>, parse: string -> Option<Value>, seen: set<Value>, now: string)
    ensures forall m :: m in EmitFrom(lines, Pass(parse, now), seen) && Truthy(m.id) && IsPrimitive(m.id) ==> m.id !in seen
  {
    if lines != [] {
      var (seen', h) := Step(lines[0], parse, seen, now);
      StepRecordsId(lines[0], parse, seen, now);
      EmittedIdsFresh(lines[1..], parse, seen', now);
    }
  }

  /** No two messages share a truthy primitive id. */
  predicate DistinctIds(ms: seq<Message>)
  {
    forall i, j :: 0 <= i < j < |ms| && Truthy(ms[i].id) && IsPrimitive(ms[i].id) ==> ms[i].id != ms[j].id
  }

  lemma DistinctCons(h: Message, tail: seq<Message>, seen: set<Value>)
    requires DistinctIds(tail)
    requires forall m :: m in tail && Truthy(m.id) && IsPrimitive(m.id) ==> m.id !in seen
    requires Truthy(h.id) && IsPrimitive(h.id) ==> h.id in seen
    ensures DistinctIds([h] + tail)
  {
    var e := [h] + tail;
    forall i, j | 0 <= i < j < |e| && Truthy(e[i].id) && IsPrimitive(e[i].id)
      ensures e[i].id != e[j].id
    {
      assert e[j] == tail[j - 1];
      if i == 0 {
        assert e[j] in tail;
      } else {
        assert e[i] == tail[i - 1];
      }
    }
  }

  /** No two emitted messages share a truthy primitive id. */
  lemma {:induction false} EmittedIdsDistinct(lines: seq<string>, parse: string -> Option<Value>, seen: set<Value>, now: string)
    ensures DistinctIds(EmitFrom(lines, Pass(parse, now), seen))
  {
    if lines != [] {
      var (seen', h) := Step(lines[0], parse, seen, now);
      EmittedIdsDistinct(lines[1..], parse, seen', now);
      EmittedIdsFresh(lines[1..], parse, seen', now);
      StepRecordsId(lines[0], parse, seen, now);
      if h.Some? {
        DistinctCons(h.value, EmitFrom(lines[1..], Pass(parse, now), seen'), seen');
      }
    }
  }

  /** The messages returned never repeat a truthy primitive id. */
  lemma SessionIdsDistinct(lines: seq<string>, maxMessages: nat, parse: string -> Option<Value>, now: string)
    ensures DistinctIds(Take(Emitted(lines, parse, now), maxMessages))
  {
    var e := Emitted(lines, parse, now);
    var r := Take(e, maxMessages);
    EmittedIdsDistinct(lines, parse, {}, now);
    forall i, j | 0 <= i < j < |r| && Truthy(r[i].id) && IsPrimitive(r[i].id)
      ensures r[i].id != r[j].id
    {
      assert r[i] == e[i] && r[j] == e[j];
    }
  }

  /** Every non-blank line whose record has a truthy id leaves that id recorded, whether
      or not the record produced a message. */
  lemma {:induction false} RecordIdsSeen(lines: seq<string>, parse: string -> Option<Value>, seen: set<Value>, now: string, k: nat)
    requires k < |lines| && !IsBlank(lines[k]) && parse(lines[k]).Some?
    requires Truthy(Get(parse(lines[k]).value, "id")) && IsPrimitive(Get(parse(lines[k]).value, "id"))
    ensures Get(parse(lines[k]).value, "id") in SeenAfter(lines, Pass(parse, now), seen)
  {
    var seen' := Step(lines[0], parse, seen, now).0;
    if k == 0 {
      SeenGrows(lines[1..], parse, seen', now);
    } else {
      assert lines[1..][k - 1] == lines[k];
      RecordIdsSeen(lines[1..], parse, seen', now, k - 1);
    }
  }

  /** A record repeating the id of any earlier record (even one that was itself
      filtered out) adds nothing. */
  lemma RepeatedIdSkipped(a: seq<string>, k: nat, line: string, parse: string -> Option<Value>, now: string)
    requires k < |a| && !IsBlank(a[k]) && parse(a[k]).Some?
    requires Truthy(Get(parse(a[k]).value, "id")) && IsPrimitive(Get(parse(a[k]).value, "id"))
    requires parse(line).Some? && Get(parse(line).value, "id") == Get(parse(a[k]).value, "id")
    ensures Emitted(a + [line], parse, now) == Emitted(a, parse, now)
  {
    var step := Pass(parse, now);
    RecordIdsSeen(a, parse, {}, now, k);
    EmitConcat(a, [line], step, {});
    assert [line][1..] == [];
  }

  /** Strictly increasing indexes below `n`. */
  predicate IsSourceMap(src: seq<nat>, n: nat)
  {
    (forall k :: 0 <= k < |src| ==> src[k] < n)
    && (forall k, l :: 0 <= k < l < |src| ==> src[k] < src[l])
  }

  /** The same indexes, one further on. */
  function Shift(src: seq<nat>): (r: seq<nat>)
    ensures |r| == |src| && forall k :: 0 <= k < |src| ==> r[k] == src[k] + 1
  {
    seq(|src|, k requires 0 <= k < |src| => src[k] + 1)
  }

  /** Shifting a source map over one more leading line, with or without that line. */
  lemma ShiftSourceMap(src: seq<nat>, n: nat)
    requires IsSourceMap(src, n)
    ensures IsSourceMap(Shift(src), n + 1)
    ensures IsSourceMap([0] + Shift(src), n + 1)
  {
  }

  /** Each emitted message is what the step on its own line emitted, from the ids
      recorded before that line. */
  lemma {:induction false} EmittedSources(lines: seq<string>, step: StepFn, seen: set<Value>)
    returns (src: seq<nat>, before: seq<set<Value>>)
    ensures |src| == |before| == |EmitFrom(lines, step, seen)| && IsSourceMap(src, |lines|)
    ensures forall k :: 0 <= k < |src| ==> step(lines[src[k]], before[k]).1 == Some(EmitFrom(lines, step, seen)[k])
  {
    if lines == [] {
      src, before := [], [];
    } else {
      var r := step(lines[0], seen);
      var rest, restBefore := EmittedSources(lines[1..], step, r.0);
      var tail := EmitFrom(lines[1..], step, r.0);
      var shifted := Shift(rest);
      ShiftSourceMap(rest, |lines| - 1);
      assert forall k :: 0 <= k < |rest| ==> lines[shifted[k]] == lines[1..][rest[k]];
      if r.1.Some? {
        src, before := [0] + shifted, [seen] + restBefore;
        assert EmitFrom(lines, step, seen) == [r.1.value] + tail;
      } else {
        src, before := shifted, restBefore;
        assert EmitFrom(lines, step, seen) == tail;
      }
    }
  }

  /** Every emitted message comes from its own line, in the order of the lines: it is
      the message that line's record yields. */
  lemma EmittedInOrder(lines: seq<string>, parse: string -> Option<Value>, now: string)
    returns (src: seq<nat>)
    ensures |src| == |Emitted(lines, parse, now)| && IsSourceMap(src, |lines|)
    ensures forall k :: 0 <= k < |src| ==>
      !IsBlank(lines[src[k]]) && parse(lines[src[k]]).Some?
      && RecordMessage(parse(lines[src[k]]).value, now) == Some(Emitted(lines, parse, now)[k])
  {
    var e := Emitted(lines, parse, now);
    var before;
    src, before := EmittedSources(lines, Pass(parse, now), {});
    forall k | 0 <= k < |src|
      ensures !IsBlank(lines[src[k]]) && parse(lines[src[k]]).Some?
      ensures RecordMessage(parse(lines[src[k]]).value, now) == Some(e[k])
    {
      StepEmits(lines[src[k]], parse, before[k], now);
    }
  }

  /** Every emitted message is a user, assistant or system message, and no system
      message is a gateway notice (which form yields which role is stated on
      `RecordMessage`). */
  lemma EmittedRoles(lines: seq<string>, parse: string -> Option<Value>, now: string)
    ensures var e := Emitted(lines, parse, now);
      forall k :: 0 <= k < |e| ==> e[k].role in {"user", "assistant", "system"}
    ensures var e := Emitted(lines, parse, now);
      forall k :: 0 <= k < |e| && e[k].role == "system" ==> !IsGatewayNotice(e[k].content)
    ensures var e := Emitted(lines, parse, now);
      forall k :: 0 <= k < |e| ==> e[k].content.Str? || (e[k].role == "system" && e[k].content.Arr?)
  {
    var e := Emitted(lines, parse, now);
    var src := EmittedInOrder(lines, parse, now);
    forall k | 0 <= k < |e|
      ensures e[k].role in {"user", "assistant", "system"}
      ensures e[k].role == "system" ==> !IsGatewayNotice(e[k].content)
      ensures e[k].content.Str? || (e[k].role == "system" && e[k].content.Arr?)
    {
      RecordForms(parse(lines[src[k]]).value, now, Some(e[k]));
    }
  }
}
