/** From the dashboard's send to its chat panel: the record `/api/chat` appends to the
    session log is read back by `parseSessionLines` as the user's message, trimmed,
    without the `[Dashboard <ts>]` wrapper the server put around it. */
module EndToEnd {
  import opened JsValues
  import opened TextContent
  import opened MetadataWrapper
  import opened SessionLog
  import opened ShellQuote
  import opened Remote
  import opened Handlers

  /** The record's content flattens to the wrapped text, trimmed, which is not empty. */
  lemma DashboardEntryText(clock: Clock, m: string)
    requires !AllSpace(m)
    ensures var text := ExtractTextContent(Get(Get(DashboardEntry(clock, m), "message"), "content"));
      text == Trim(DashboardText(clock.iso, m)) && text != ""
  {
    var text := DashboardText(clock.iso, m);
    assert Get(Get(DashboardEntry(clock, m), "message"), "content") == Arr([TextPart(text)]);
    assert text != "" && ShownAs(TextPart(text), text);
    ShownPartsJoined([TextPart(text)], [text]);
    assert Join([text], " ") == text;
    TrimmedDashboardText(clock.iso, m);
    assert Trim(text)[0] == '[';
  }

  /** The fields of the record that decide how it is read. */
  lemma DashboardEntryFields(clock: Clock, m: string)
    ensures var obj := DashboardEntry(clock, m);
      IsEnvelopeForm(obj) && Get(Get(obj, "message"), "role") == Str("user")
      && Get(obj, "id") == Str(DashboardEntryId(clock)) && Get(obj, "timestamp") == Str(clock.iso)
  {
  }

  /** The appended record, once parsed, becomes one user message. */
  lemma DashboardEntryMessage(clock: Clock, m: string, now: string)
    requires ']' !in clock.iso
    requires !AllSpace(m)
    requires NoTrailerSuffix(Trim(m))
    ensures RecordMessage(DashboardEntry(clock, m), now)
      == Some(Message(Str(DashboardEntryId(clock)), "user", Str(Trim(m)), Str(clock.iso)))
  {
    DashboardEntryFields(clock, m);
    DashboardEntryText(clock, m);
    UnwrapDashboard(clock.iso, m);
    EnvelopeUserMessage(DashboardEntry(clock, m), now, Trim(m));
  }

  /** The line the chat handler echoes into the session file, read by the shell as one
      word and parsed by the dashboard, shows the typed message: `parse` stands for
      `JSON.parse`, assumed to invert `stringify`. */
  lemma SentMessageShown(clock: Clock, m: string, file: string, stringify: Value -> string,
                         parse: string -> Option<Value>, now: string)
    requires ']' !in clock.iso
    requires !AllSpace(m)
    requires NoTrailerSuffix(Trim(m))
    requires parse(stringify(DashboardEntry(clock, m))) == Some(DashboardEntry(clock, m))
    requires !IsBlank(stringify(DashboardEntry(clock, m)))
    ensures var line := stringify(DashboardEntry(clock, m));
      ReadWord(AppendCommand(line, file)[5..], Unquoted, "") == Some((line, " >> \"" + file + "\""))
      && Emitted([line], parse, now) == [Message(Str(DashboardEntryId(clock)), "user", Str(Trim(m)), Str(clock.iso))]
  {
    var line := stringify(DashboardEntry(clock, m));
    AppendEchoesLine(line, file);
    DashboardEntryMessage(clock, m, now);
    TakeLine([line], 0, parse, {}, now);
    assert [line][0..] == [line] && [line][1..] == [];
  }
}
