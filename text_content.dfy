/** `extractTextContent` (public/app.js): flattening a chat message's `content`,
    which may be a string, an array of typed parts, or an object, into display text. */
module TextContent {
  import opened JsValues

  /** The part types whose text is never shown: reasoning and tool traffic. */
  predicate IsHiddenPart(item: Value)
  {
    item.Obj? && Get(item, "type") in {Str("thinking"), Str("tool_call"), Str("tool_result"), Str("toolCall")}
  }

  /** What one element of a content array maps to before `filter(Boolean)`. */
  function PartText(item: Value): (r: Value)
    ensures IsHiddenPart(item) ==> !Truthy(r)
    ensures item.Str? ==> r == item
    ensures item.Obj? && !IsHiddenPart(item) && Truthy(Get(item, "text")) ==> r == Get(item, "text")
    ensures Truthy(r) && !item.Str? ==> item.Obj? && r == Get(item, "text")
    ensures !item.Str? && !item.Obj? ==> r == Str("")
  {
    match item
    case Str(_) => item
    case Obj(_) =>
      var ty := Get(item, "type");
      var text := Get(item, "text");
      if ty == Str("text") && Truthy(text) then text
      else if ty == Str("thinking") then Str("")
      else if ty == Str("tool_call") || ty == Str("tool_result") || ty == Str("toolCall") then Str("")
      else if Truthy(text) then text
      else Str("")
    case _ => Str("")
  }

  /** The pieces `join(" ")` receives: each contributing part's text, in order. */
  function Pieces(items: seq<Value>): seq<string>
  {
    if items == [] then []
    else
      var p := PartText(items[0]);
      (if Truthy(p) then [ToStr(p)] else []) + Pieces(items[1..])
  }

  /** The display text of a message's `content`. */
  function ExtractTextContent(content: Value): (r: string)
    ensures !Truthy(content) ==> r == ""
    ensures content == Arr([]) ==> r == ""
    ensures content.Str? ==> r == content.s
    ensures content.Num? || content.Bool? ==> r == ""
    ensures content.Obj? ==> r == (if Get(content, "text").Str? then Get(content, "text").s else "")
    ensures content.Arr? && r != "" ==> !IsSpace(r[0]) && !IsSpace(r[|r| - 1])
  {
    if !Truthy(content) then ""
    else match content
      case Str(s) => s
      case Arr(items) =>
        if |items| == 0 then ""
        else
          var joined := Join(Pieces(items), " ");
          if Trim(joined) != "" then TrimEdges(joined); Trim(joined) else ""
      case Obj(_) =>
        var text := Get(content, "text");
        if Truthy(text) && text.Str? then text.s else ""
      case _ => ""
  }

  lemma {:induction false} PiecesConcat(a: seq<Value>, b: seq<Value>)
    ensures Pieces(a + b) == Pieces(a) + Pieces(b)
  {
    if a != [] {
      assert (a + b)[0] == a[0];
      assert (a + b)[1..] == a[1..] + b;
      PiecesConcat(a[1..], b);
    } else {
      assert a + b == b;
    }
  }

  /** A part that maps to a falsy value (a hidden thinking or tool part, an empty
      string, a part without text) can be added anywhere without changing the text. */
  lemma SilentPartIgnored(a: seq<Value>, p: Value, b: seq<Value>)
    requires !Truthy(PartText(p))
    ensures ExtractTextContent(Arr(a + [p] + b)) == ExtractTextContent(Arr(a + b))
  {
    PiecesConcat(a + [p], b);
    PiecesConcat(a, [p]);
    PiecesConcat(a, b);
    assert Pieces([p]) == [] by {
      assert [p][1..] == [];
    }
    assert Pieces(a + [p] + b) == Pieces(a + b);
  }

  /** Hidden parts in particular contribute nothing. */
  lemma HiddenPartIgnored(a: seq<Value>, p: Value, b: seq<Value>)
    requires IsHiddenPart(p)
    ensures ExtractTextContent(Arr(a + [p] + b)) == ExtractTextContent(Arr(a + b))
  {
    SilentPartIgnored(a, p, b);
  }

  /** A `{type: "text", text}` part. */
  function TextPart(t: string): Value
  {
    Obj(map["type" := Str("text"), "text" := Str(t)])
  }

  /** `item` is shown as the text `t`: it is the non-empty string `t` itself, or a part
      that is not hidden, typed or not, whose `text` is the non-empty string `t`. */
  predicate ShownAs(item: Value, t: string)
  {
    t != "" && (item == Str(t) || (item.Obj? && !IsHiddenPart(item) && Get(item, "text") == Str(t)))
  }

  lemma {:induction false} ShownPieces(items: seq<Value>, ts: seq<string>)
    requires |items| == |ts|
    requires forall i :: 0 <= i < |items| ==> ShownAs(items[i], ts[i])
    ensures Pieces(items) == ts
  {
    if items != [] {
      assert ShownAs(items[0], ts[0]);
      assert PartText(items[0]) == Str(ts[0]);
      ShownPieces(items[1..], ts[1..]);
    }
  }

  /** Parts that each show a non-empty text, string elements and `text` parts alike,
      are shown joined with single spaces, then trimmed. */
  lemma ShownPartsJoined(items: seq<Value>, ts: seq<string>)
    requires items != [] && |items| == |ts|
    requires forall i :: 0 <= i < |items| ==> ShownAs(items[i], ts[i])
    ensures ExtractTextContent(Arr(items)) == Trim(Join(ts, " "))
  {
    ShownPieces(items, ts);
    assert Truthy(Arr(items));
    var joined := Join(Pieces(items), " ");
    assert ExtractTextContent(Arr(items)) == (if Trim(joined) != "" then Trim(joined) else "");
  }
}
