/** The message filter at the start of `renderMessages` (public/app.js): an assistant
    message with nothing to show is skipped when the message kept just before it is
    also from the assistant. Despite the comment "keep only latest" beside it, the
    loop keeps the EARLIER message of such a run. */
module RenderFilter {
  import opened JsValues
  import opened SessionLog

  /** An assistant message with no text yet. */
  predicate IsPlaceholder(m: Message)
  {
    m.role == "assistant"
    && (!Truthy(m.content) || m.content == Str("(no content)") || m.content == Str("(thinking...)"))
  }

  /** Whether `m` is skipped after the messages `kept` so far. */
  predicate Skips(kept: seq<Message>, m: Message)
  {
    IsPlaceholder(m) && kept != [] && kept[|kept| - 1].role == "assistant"
  }

  /** The messages the filter keeps, defined on ever longer prefixes. */
  function Kept(ms: seq<Message>): seq<Message>
  {
    if ms == [] then []
    else
      var f := Kept(ms[..|ms| - 1]);
      if Skips(f, ms[|ms| - 1]) then f else f + [ms[|ms| - 1]]
  }

  /** The loop: `filteredMessages` grows by one message or stays as it is. */
  method FilterMessages(messages: seq<Message>) returns (filtered: seq<Message>)
    ensures filtered == Kept(messages)
  {
    filtered := [];
    var i := 0;
    while i < |messages|
      invariant 0 <= i <= |messages|
      invariant filtered == Kept(messages[..i])
    {
      var msg := messages[i];
      assert messages[..i + 1][..i] == messages[..i];
      if msg.role == "assistant"
        && (!Truthy(msg.content) || msg.content == Str("(no content)") || msg.content == Str("(thinking...)"))
        && filtered != [] && filtered[|filtered| - 1].role == "assistant"
      {
        i := i + 1;
        continue;
      }
      filtered := filtered + [msg];
      i := i + 1;
    }
    assert messages[..i] == messages;
  }

  lemma KeptSnoc(ms: seq<Message>, m: Message)
    ensures Kept(ms + [m]) == if Skips(Kept(ms), m) then Kept(ms) else Kept(ms) + [m]
  {
    assert (ms + [m])[..|ms|] == ms;
  }

  /** The indexes of the kept messages. */
  function KeptIndexes(ms: seq<Message>): seq<nat>
  {
    if ms == [] then []
    else
      var p := ms[..|ms| - 1];
      if Skips(Kept(p), ms[|ms| - 1]) then KeptIndexes(p) else KeptIndexes(p) + [|ms| - 1]
  }

  /** The kept messages are an order-preserving selection of the input that starts
      with the first message. */
  lemma {:induction false} KeptSelection(ms: seq<Message>)
    ensures var src := KeptIndexes(ms);
      |src| == |Kept(ms)| && IsSourceMap(src, |ms|)
      && (forall k :: 0 <= k < |src| ==> Kept(ms)[k] == ms[src[k]])
      && (ms != [] ==> src[0] == 0)
    decreases |ms|
  {
    if ms != [] {
      var p := ms[..|ms| - 1];
      var m := ms[|ms| - 1];
      assert ms == p + [m];
      KeptSelection(p);
      KeptSnoc(p, m);
      var sp := KeptIndexes(p);
      forall k | 0 <= k < |sp| ensures ms[sp[k]] == p[sp[k]] { }
      if p == [] {
        assert Kept(p) == [];
      }
    }
  }

  /** Every message that is not a placeholder is kept. */
  lemma {:induction false} NonPlaceholdersKept(ms: seq<Message>)
    ensures forall i :: 0 <= i < |ms| && !IsPlaceholder(ms[i]) ==> i in KeptIndexes(ms)
    decreases |ms|
  {
    if ms != [] {
      var p := ms[..|ms| - 1];
      NonPlaceholdersKept(p);
      forall i | 0 <= i < |p| ensures ms[i] == p[i] { }
    }
  }

  /** The indexes kept from `ms` are those kept from all but its last message, and
      the last index unless the last message is skipped. */
  lemma KeptIndexesSnoc(ms: seq<Message>)
    requires ms != []
    ensures var p := ms[..|ms| - 1];
      forall i :: i in KeptIndexes(ms) <==> i in KeptIndexes(p) || (i == |p| && !Skips(Kept(p), ms[|p|]))
    ensures |ms| - 1 !in KeptIndexes(ms[..|ms| - 1])
  {
    var p := ms[..|ms| - 1];
    KeptSelection(p);
    assert forall k :: 0 <= k < |KeptIndexes(p)| ==> KeptIndexes(p)[k] < |p|;
  }

  /** Message `i` is dropped exactly when it is a placeholder and the last message kept
      before it is from the assistant. */
  lemma {:induction false} DroppedExactly(ms: seq<Message>)
    ensures forall i :: 0 <= i < |ms| ==> (i !in KeptIndexes(ms) <==> Skips(Kept(ms[..i]), ms[i]))
    decreases |ms|
  {
    if ms != [] {
      var p := ms[..|ms| - 1];
      DroppedExactly(p);
      KeptIndexesSnoc(ms);
      forall i | 0 <= i < |ms|
        ensures i !in KeptIndexes(ms) <==> Skips(Kept(ms[..i]), ms[i])
      {
        if i < |p| {
          assert ms[..i] == p[..i];
          assert ms[i] == p[i];
        } else {
          assert ms[..i] == p;
        }
      }
    }
  }

  /** In the filtered list no placeholder comes right after an assistant message. */
  lemma {:induction false} KeptPlaceholderFollowsOther(ms: seq<Message>)
    ensures var f := Kept(ms);
      forall k :: 0 < k < |f| && IsPlaceholder(f[k]) ==> f[k - 1].role != "assistant"
    decreases |ms|
  {
    if ms != [] {
      var p := ms[..|ms| - 1];
      var m := ms[|ms| - 1];
      assert ms == p + [m];
      KeptSnoc(p, m);
      KeptPlaceholderFollowsOther(p);
    }
  }

  /** Filtering what was already filtered changes nothing. */
  lemma {:induction false} KeptIdempotent(ms: seq<Message>)
    ensures Kept(Kept(ms)) == Kept(ms)
    decreases |ms|
  {
    if ms != [] {
      var p := ms[..|ms| - 1];
      var m := ms[|ms| - 1];
      assert ms == p + [m];
      KeptSnoc(p, m);
      KeptIdempotent(p);
      if !Skips(Kept(p), m) {
        KeptSnoc(Kept(p), m);
      }
    }
  }

  /** After an assistant message, a run of placeholders is dropped entirely: the EARLIER
      message is the one kept. */
  lemma {:induction false} KeepsEarliest(pre: seq<Message>, a: Message, run: seq<Message>)
    requires a.role == "assistant"
    requires forall x :: x in run ==> IsPlaceholder(x)
    ensures Kept(pre + [a] + run) == Kept(pre + [a])
    ensures Kept(pre + [a]) != [] && Kept(pre + [a])[|Kept(pre + [a])| - 1].role == "assistant"
    decreases |run|
  {
    assert Kept(pre + [a]) != [] && Kept(pre + [a])[|Kept(pre + [a])| - 1].role == "assistant" by {
      KeptSnoc(pre, a);
    }
    if run == [] {
      assert pre + [a] + run == pre + [a];
    } else {
      var r := run[..|run| - 1];
      var x := run[|run| - 1];
      assert Kept(pre + [a] + r) == Kept(pre + [a]) by {
        assert forall y :: y in r ==> y in run;
        KeepsEarliest(pre, a, r);
      }
      assert IsPlaceholder(x) by {
        assert x in run;
      }
      var q := pre + [a] + r;
      assert Kept(q + [x]) == Kept(q) by {
        KeptSnoc(q, x);
      }
      assert pre + [a] + run == q + [x];
    }
  }
}
