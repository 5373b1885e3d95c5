/** The user-message unwrapping in `parseSessionLines` (public/app.js): the regular
    expression `/\[(Telegram|Dashboard)[^\]]*\]\s*(.+?)(?:\n\[message_id:\s*\d+\])?$/s`
    applied with `String.prototype.match`, written out as the match it computes. */
module MetadataWrapper {
  import opened JsValues

  const TelegramTag: string := "[Telegram"
  const DashboardTag: string := "[Dashboard"
  /** The start of the optional `\n[message_id: <digits>]` trailer. */
  const TrailerHead: string := "\n[message_id:"

  predicate IsDigit(c: char)
  {
    '0' <= c <= '9'
  }

  predicate AllDigits(s: string)
  {
    forall i :: 0 <= i < |s| ==> IsDigit(s[i])
  }

  /** `\n\[message_id:\s*\d+\]` matches the whole of `t`. */
  predicate IsMessageIdTrailer(t: string)
  {
    |t| >= |TrailerHead| + 2 && t[..|TrailerHead|] == TrailerHead && t[|t| - 1] == ']'
    && var mid := t[|TrailerHead|..|t| - 1];
    var w := LeadingSpaces(mid);
    w < |mid| && AllDigits(mid[w..])
  }

  /** Index of the first `]` at or after `k`: where `[^\]]*\]` stops. */
  function FirstClose(s: string, k: nat): (r: Option<nat>)
    decreases |s| - k
    ensures r.Some? ==> k <= r.value < |s| && s[r.value] == ']'
    ensures r.Some? ==> forall j :: k <= j < r.value ==> s[j] != ']'
    ensures r.None? ==> forall j :: k <= j < |s| ==> s[j] != ']'
  {
    if k >= |s| then None else if s[k] == ']' then Some(k) else FirstClose(s, k + 1)
  }

  /** The lazy `(.+?)`: the first end `r >= k` after which the optional trailer and `$`
      can match, that is, the rest is empty or exactly one trailer. */
  function LazyEnd(t: string, k: nat): (r: nat)
    requires 1 <= k <= |t|
    decreases |t| - k
    ensures k <= r <= |t|
    ensures r == |t| || IsMessageIdTrailer(t[r..])
    ensures forall j :: k <= j < r ==> !IsMessageIdTrailer(t[j..])
  {
    if k == |t| || IsMessageIdTrailer(t[k..]) then k else LazyEnd(t, k + 1)
  }

  /** Group 2 when the text after the closing bracket is `rest`. The greedy `\s*` gives
      back one character when nothing else is left for `(.+?)`. */
  function CapturedBody(rest: string): (r: string)
    requires rest != []
    ensures r != ""
  {
    var w := LeadingSpaces(rest);
    if w == |rest| then rest[|rest| - 1..]
    else
      var t := rest[w..];
      t[..LazyEnd(t, 1)]
  }

  /** The match attempt starting at index `i`: group 2, if the pattern matches there. */
  function MatchAt(s: string, i: nat): Option<string>
  {
    var tag :=
      if StartsWithAt(s, i, TelegramTag) then |TelegramTag|
      else if StartsWithAt(s, i, DashboardTag) then |DashboardTag|
      else 0;
    if tag == 0 then None
    else match FirstClose(s, i + tag)
      case None => None
      case Some(j) => if j + 1 < |s| then Some(CapturedBody(s[j + 1..])) else None
  }

  /** `String.prototype.match`: the leftmost position where the pattern matches. */
  function FindWrapper(s: string, i: nat): Option<string>
    decreases |s| - i
  {
    if i >= |s| then None
    else match MatchAt(s, i)
      case Some(g) => Some(g)
      case None => FindWrapper(s, i + 1)
  }

  /** The text shown for a non-empty user message: the wrapped body, trimmed, or the
      content itself when there is no wrapper. */
  function UnwrapUserText(content: string): string
  {
    match FindWrapper(content, 0)
    case Some(g) => Trim(g)
    case None => content
  }

  /** The text server.js writes for a message sent from the dashboard. */
  function DashboardText(timestamp: string, message: string): string
  {
    DashboardTag + " " + timestamp + "] " + message
  }

  /** No proper suffix of `t` is a message-id trailer. */
  predicate NoTrailerSuffix(t: string)
  {
    forall k :: 0 < k < |t| ==> !IsMessageIdTrailer(t[k..])
  }

  /** `Trim(DashboardText(ts, m))`, as `extractTextContent` hands it on, starts with the tag
      and keeps the timestamp and the message with only its end trimmed. */
  lemma TrimmedDashboardText(ts: string, m: string)
    requires !AllSpace(m)
    ensures Trim(DashboardText(ts, m)) == DashboardTag + " " + ts + "] " + TrimEnd(m)
  {
    var p := DashboardTag + " " + ts + "] ";
    assert DashboardText(ts, m) == p + m;
    TrimEndConcat(p, m);
    var e := p + TrimEnd(m);
    assert e[0] == '[';
    TrimStartNonSpace(e);
  }

  /** Where the bracket closes in a dashboard text whose timestamp holds no `]`. */
  lemma DashboardClose(x: string, ts: string, tail: string)
    requires x == DashboardTag + " " + ts + "]" + tail
    requires ']' !in ts
    ensures FirstClose(x, |DashboardTag|) == Some(|DashboardTag| + 1 + |ts|)
  {
    var j := |DashboardTag| + 1 + |ts|;
    assert x[j] == ']';
    var r := FirstClose(x, |DashboardTag|);
    forall i | |DashboardTag| <= i < j ensures x[i] != ']' {
      if i > |DashboardTag| {
        assert x[i] == ts[i - |DashboardTag| - 1];
      }
    }
  }

  /** The body after `] `: leading whitespace is skipped and, with no trailer, the lazy
      group runs to the end. */
  lemma BodyCaptured(m: string)
    requires !AllSpace(m)
    requires NoTrailerSuffix(Trim(m))
    ensures CapturedBody(" " + TrimEnd(m)) == Trim(m)
  {
    var e := TrimEnd(m);
    var rest := " " + e;
    TrimEmpty(m);
    assert Trim(m) == e[LeadingSpaces(e)..];
    assert LeadingSpaces(rest) == 1 + LeadingSpaces(e) by {
      assert rest[1..] == e;
    }
    var t := rest[LeadingSpaces(rest)..];
    assert t == Trim(m);
    var r := LazyEnd(t, 1);
    assert r == |t|;
  }

  /** A message the dashboard sends, `[Dashboard <ts>] m`, is shown as `m` trimmed,
      provided the timestamp holds no `]`, `m` is not blank, and `m` trimmed does not
      end in a `\n[message_id: <digits>]` trailer. */
  lemma UnwrapDashboard(ts: string, m: string)
    requires ']' !in ts
    requires !AllSpace(m)
    requires NoTrailerSuffix(Trim(m))
    ensures UnwrapUserText(Trim(DashboardText(ts, m))) == Trim(m)
  {
    var x := Trim(DashboardText(ts, m));
    TrimmedDashboardText(ts, m);
    assert !StartsWithAt(x, 0, TelegramTag) by {
      assert x[1] == 'D';
    }
    assert StartsWithAt(x, 0, DashboardTag);
    var tail := " " + TrimEnd(m);
    assert x == DashboardTag + " " + ts + "]" + tail;
    DashboardClose(x, ts, tail);
    var j := |DashboardTag| + 1 + |ts|;
    assert x[j + 1..] == tail;
    TrimEmpty(m);
    BodyCaptured(m);
    assert MatchAt(x, 0) == Some(Trim(m));
    TrimIdempotent(m);
  }
}
