/** `render_gemma4_chat` of `cogni_agent/prompting.py`: the framed prompt, and a
    reader that recovers everything that was framed. */
module PromptTranscript {
  import opened Basics
  import opened PromptFraming

  datatype Turn = Turn(role: string, content: string)

  /** The closed turns, and the open answer of the model (empty if none was given). */
  datatype Transcript = Transcript(turns: seq<Turn>, partial: string)

  function Frame(t: Turn): string {
    SOT + t.role + "\n" + t.content + EOT + "\n"
  }

  function Frames(turns: seq<Turn>): string {
    if turns == [] then "" else Frames(turns[..|turns| - 1]) + Frame(turns[|turns| - 1])
  }

  function Encode(t: Transcript): string {
    Frames(t.turns) + SOT + "model\n" + t.partial
  }

  // ------------------------------------------------------------------
  // Reading it back
  // ------------------------------------------------------------------

  /** The first place of a token, or -1. */
  function Find(s: string, token: string): (p: int)
    ensures -1 <= p && (p >= 0 ==> p + |token| <= |s|)
  {
    if |s| < |token| then -1
    else if token <= s then 0
    else if s == "" then -1
    else var p := Find(s[1..], token); if p < 0 then -1 else p + 1
  }

  datatype Reading = Read(transcript: Transcript) | Garbled

  /** Splits at the turn tokens: a header line, then everything up to the end
      token; a turn without one is the open answer. */
  function Parse(s: string): Reading
    decreases |s|
  {
    match Split(s)
    case NoTurn => Garbled
    case OpenTurn(role, rest) => if role == "model" then Read(Transcript([], rest)) else Garbled
    case ClosedTurn(turn, rest) => if |rest| < |s| then Prepend(turn, Parse(rest)) else Garbled
  }

  datatype First = NoTurn | OpenTurn(role: string, rest: string) | ClosedTurn(turn: Turn, rest: string)

  /** The first turn of a prompt. */
  function Split(s: string): First {
    if !(SOT <= s) then NoTurn
    else
      var body := s[|SOT|..];
      var line := Find(body, "\n");
      if line < 0 then NoTurn
      else
        var role, rest := body[..line], body[line + 1..];
        var end := Find(rest, EOT);
        if end < 0 then OpenTurn(role, rest)
        else
          var tail := rest[end + |EOT|..];
          if "\n" <= tail then ClosedTurn(Turn(role, rest[..end]), tail[1..]) else NoTurn
  }

  function Prepend(turn: Turn, reading: Reading): Reading {
    match reading
    case Garbled => Garbled
    case Read(t) => Read(Transcript([turn] + t.turns, t.partial))
  }

  /** A text that can stand in a frame. */
  ghost predicate Enclosed(text: string) {
    forall p :: !OccursAt(EOT, text, p)
  }

  ghost predicate Framed(t: Transcript) {
    && Enclosed(t.partial)
    && forall i :: 0 <= i < |t.turns| ==> '\n' !in t.turns[i].role && Enclosed(t.turns[i].content)
  }

  lemma EnclosedTail(text: string)
    requires Enclosed(text) && text != ""
    ensures Enclosed(text[1..])
  {
    forall p: nat ensures !OccursAt(EOT, text[1..], p) {
      OccursAfter(EOT, [text[0]], text[1..], p + 1);
      assert text == [text[0]] + text[1..];
      assert !OccursAt(EOT, text, p + 1);
    }
  }

  /** The end token cannot begin inside the text and run over its end. */
  lemma EndIsNotEarly(text: string, tail: string)
    requires Enclosed(text) && text != ""
    ensures !(EOT <= text + EOT + tail)
  {
    var s := text + EOT + tail;
    if |text| >= |EOT| {
      assert !OccursAt(EOT, text, 0);
      assert s[..|EOT|] == text[0..0 + |EOT|];
    } else {
      assert s[|text|] == EOT[0] == '<' && EOT[|text|] != '<';
    }
  }

  /** The end token is found where the frame put it. */
  lemma {:induction false} FindsEnd(text: string, tail: string)
    requires Enclosed(text)
    ensures Find(text + EOT + tail, EOT) == |text|
  {
    var s := text + EOT + tail;
    if text == "" {
      assert s == EOT + tail;
      assert EOT <= s;
    } else {
      EndIsNotEarly(text, tail);
      EnclosedTail(text);
      assert s[1..] == text[1..] + EOT + tail;
      FindsEnd(text[1..], tail);
    }
  }

  lemma {:induction false} FindsNothing(text: string)
    requires Enclosed(text)
    ensures Find(text, EOT) == -1
  {
    if |text| >= |EOT| {
      assert !OccursAt(EOT, text, 0);
      assert text[..|EOT|] == text[0..0 + |EOT|];
      EnclosedTail(text);
      FindsNothing(text[1..]);
    }
  }

  lemma {:induction false} FindsLine(role: string, tail: string)
    requires '\n' !in role
    ensures Find(role + "\n" + tail, "\n") == |role|
  {
    var s := role + "\n" + tail;
    if role == "" {
      assert "\n" <= s;
    } else {
      assert s[1..] == role[1..] + "\n" + tail;
      assert s[0] == role[0] != '\n';
      FindsLine(role[1..], tail);
    }
  }

  lemma {:induction false} FramesCons(turns: seq<Turn>)
    requires turns != []
    ensures Frames(turns) == Frame(turns[0]) + Frames(turns[1..])
  {
    var n := |turns| - 1;
    hide Frame;
    if n > 0 {
      FramesCons(turns[..n]);
      var middle := turns[1..][..n - 1];
      assert turns[..n][0] == turns[0] && turns[..n][1..] == middle && turns[1..][|turns[1..]| - 1] == turns[n];
      assert Frames(turns[1..]) == Frames(middle) + Frame(turns[n]);
      Regroup(Frame(turns[0]), Frames(middle), Frame(turns[n]));
    } else {
      assert turns[..0] == [] && turns[1..] == [];
    }
  }

  lemma HeadAndTail(a: string, b: string)
    ensures a <= a + b && (a + b)[..|a|] == a && (a + b)[|a|..] == b
  {
  }

  /** A turn whose line and end are found where the frame put them. */
  lemma SplitIs(body: string, role: string, after: string, content: string, tail: string)
    requires Find(body, "\n") == |role| && body == role + "\n" + after
    requires Find(after, EOT) == |content| && after == content + EOT + ("\n" + tail)
    ensures Split(SOT + body) == ClosedTurn(Turn(role, content), tail)
  {
    hide Find;
    HeadAndTail(SOT, body);
    assert body[..|role|] == role && body[|role| + 1..] == after;
    assert after[..|content|] == content && after[|content| + |EOT|..] == "\n" + tail;
    assert ("\n" + tail)[1..] == tail && "\n" <= "\n" + tail;
  }

  lemma SplitFrame(t: Turn, tail: string)
    requires '\n' !in t.role && Enclosed(t.content)
    ensures Split(Frame(t) + tail) == ClosedTurn(t, tail)
  {
    var after := t.content + EOT + ("\n" + tail);
    var body := t.role + "\n" + after;
    FindsLine(t.role, after);
    FindsEnd(t.content, "\n" + tail);
    hide Enclosed;
    hide Find;
    hide Split;
    SplitIs(body, t.role, after, t.content, tail);
    FrameTail(t, tail);
  }

  lemma Regroup(a: string, b: string, c: string)
    ensures a + b + c == a + (b + c)
  {
  }

  lemma FrameTail(t: Turn, tail: string)
    ensures Frame(t) + tail == SOT + (t.role + "\n" + (t.content + EOT + ("\n" + tail)))
  {
    var head := SOT + t.role + "\n";
    Regroup(head + t.content + EOT, "\n", tail);
    Regroup(head, t.content, EOT);
    Regroup(head, t.content + EOT, "\n" + tail);
    Regroup(SOT + t.role, "\n", t.content + EOT + ("\n" + tail));
    Regroup(SOT, t.role, "\n" + (t.content + EOT + ("\n" + tail)));
    Regroup(t.role, "\n", t.content + EOT + ("\n" + tail));
  }

  lemma SplitOpen(partial: string)
    requires Enclosed(partial)
    ensures Split(SOT + "model\n" + partial) == OpenTurn("model", partial)
  {
    var s := SOT + "model\n" + partial;
    var body := "model" + "\n" + partial;
    FindsLine("model", partial);
    FindsNothing(partial);
    hide Enclosed;
    hide Find;
    assert s == SOT + body;
    assert SOT <= s && s[|SOT|..] == body;
    assert body[..5] == "model" && body[6..] == partial;
  }

  /** Reading what was framed gives back every role, every content, and the open answer. */
  lemma {:induction false} RoundTrip(t: Transcript)
    requires Framed(t)
    ensures Parse(Encode(t)) == Read(t)
    decreases |t.turns|
  {
    hide Split;
    hide Enclosed;
    if t.turns == [] {
      SplitOpen(t.partial);
      assert Encode(t) == SOT + "model\n" + t.partial;
    } else {
      var rest := Transcript(t.turns[1..], t.partial);
      FramesCons(t.turns);
      assert Encode(t) == Frame(t.turns[0]) + Encode(rest);
      assert forall i :: 0 <= i < |rest.turns| ==> rest.turns[i] == t.turns[i + 1];
      RoundTrip(rest);
      SplitFrame(t.turns[0], Encode(rest));
      assert [t.turns[0]] + rest.turns == t.turns;
      hide Encode;
    }
  }

  /** Two framed transcripts with the same prompt are the same transcript. */
  lemma Unambiguous(a: Transcript, b: Transcript)
    requires Framed(a) && Framed(b) && Encode(a) == Encode(b)
    ensures a == b
  {
    RoundTrip(a);
    RoundTrip(b);
  }

  /** A prompt with one question, written out. */
  lemma SamplePrompt(system: string, question: string, partial: string)
    ensures Encode(Transcript([Turn("system", system), Turn("user", question)], partial)) ==
      "<|turn>system\n" + system + "<turn|>\n" + ("<|turn>user\n" + question + "<turn|>\n") + "<|turn>" + "model\n" + partial
  {
    var turns := [Turn("system", system), Turn("user", question)];
    assert turns[..1] == [turns[0]] && turns[..1][..0] == [];
    assert Frames(turns[..1]) == Frame(turns[0]);
    assert Frames(turns) == Frame(turns[0]) + Frame(turns[1]);
    assert SOT + "system" + "\n" == "<|turn>system\n" && SOT + "user" + "\n" == "<|turn>user\n";
    Regroup("<|turn>system\n" + system, EOT, "\n");
    Regroup("<|turn>user\n" + question, EOT, "\n");
    assert EOT + "\n" == "<turn|>\n";
  }

  // ------------------------------------------------------------------
  // Rendering
  // ------------------------------------------------------------------

  datatype Message = Message(role: string, content: string)

  datatype Rendering = Rendered(text: string) | Refused

  function GemmaRole(role: string): string {
    if role == "user" then "user" else "model"
  }

  /** Alternating turns of text that may be shown. */
  ghost predicate Conversation(messages: seq<Message>) {
    && (forall i :: 0 <= i < |messages| ==>
          (messages[i].role == "user" || messages[i].role == "assistant") && Accepted(messages[i].content))
    && forall i :: 0 < i < |messages| ==> messages[i].role != messages[i - 1].role
  }

  ghost predicate Renderable(system: string, messages: seq<Message>, partial: Option<string>) {
    && Accepted(system) && Conversation(messages)
    && messages != [] && messages[|messages| - 1].role == "user"
    && (partial.Some? ==> Accepted(partial.value))
  }

  /** The turns are the messages, each text neutralized. */
  ghost predicate Tells(turns: seq<Turn>, system: string, messages: seq<Message>, extras: seq<string>) {
    && |turns| == 1 + |messages| && turns[0].role == "system" && Neutralized(system, turns[0].content, extras)
    && forall i :: 0 <= i < |messages| ==>
      && (messages[i].role == "user" ==> turns[i + 1].role == "user") && (messages[i].role != "user" ==> turns[i + 1].role == "model")
      && Neutralized(messages[i].content, turns[i + 1].content, extras)
  }

  ghost predicate Continues(text: string, partial: Option<string>, extras: seq<string>) {
    match partial
    case None => text == ""
    case Some(p) => Neutralized(p, text, extras) && text != ""
  }

  lemma CleanIsEnclosed(original: string, text: string)
    requires Clean(original, text)
    ensures Enclosed(text) && |text| == |original|
  {
    assert EOT in KNOWN by { assert KNOWN[1] == EOT; }
    assert !Occurs(EOT, text);
  }

  lemma TellsIsFramed(turns: seq<Turn>, system: string, messages: seq<Message>, partial: string, given: Option<string>, extras: seq<string>)
    requires Tells(turns, system, messages, extras) && Continues(partial, given, extras)
    ensures Framed(Transcript(turns, partial))
  {
    forall i | 0 <= i < |turns| ensures '\n' !in turns[i].role && Enclosed(turns[i].content) {
      if i == 0 { CleanIsEnclosed(system, turns[0].content); }
      else {
        assert Neutralized(messages[i - 1].content, turns[i - 1 + 1].content, extras);
        CleanIsEnclosed(messages[i - 1].content, turns[i].content);
      }
    }
    if given.Some? { CleanIsEnclosed(given.value, partial); }
  }

  /** One more message. */
  lemma TellsStep(turns: seq<Turn>, system: string, messages: seq<Message>, k: nat, content: string, extras: seq<string>)
    requires k < |messages| && Tells(turns, system, messages[..k], extras) && Neutralized(messages[k].content, content, extras)
    ensures Tells(turns + [Turn(GemmaRole(messages[k].role), content)], system, messages[..k + 1], extras)
  {
    hide Neutralized;
    var more, told := turns + [Turn(GemmaRole(messages[k].role), content)], messages[..k + 1];
    assert more[0] == turns[0];
    forall i | 0 <= i < |told|
      ensures (told[i].role == "user" ==> more[i + 1].role == "user") && (told[i].role != "user" ==> more[i + 1].role == "model")
      ensures Neutralized(told[i].content, more[i + 1].content, extras)
    {
      if i < k { assert messages[..k][i] == messages[i] && more[i + 1] == turns[i + 1]; }
    }
  }

  lemma ConversationStep(messages: seq<Message>, k: nat)
    requires k < |messages| && Conversation(messages[..k])
    ensures Conversation(messages[..k + 1]) <==>
      && (messages[k].role == "user" || messages[k].role == "assistant") && Accepted(messages[k].content)
      && (k > 0 ==> messages[k].role != messages[k - 1].role)
    ensures Conversation(messages) ==> Conversation(messages[..k + 1])
  {
    assert messages[..k + 1][k] == messages[k];
    assert forall i :: 0 <= i < k ==> messages[..k + 1][i] == messages[..k][i];
  }

  /** One message of the loop. */
  method RenderTurn(extras: seq<string>, m: Message, first: bool, previous: string) returns (ok: bool, turn: Turn)
    ensures ok <==> (m.role == "user" || m.role == "assistant") && Accepted(m.content) && (first || m.role != previous)
    ensures ok ==> turn.role == GemmaRole(m.role) && Neutralized(m.content, turn.content, extras)
  {
    hide Neutralized;
    turn := Turn("", "");
    if m.role != "user" && m.role != "assistant" { return false, turn; }
    if !first && m.role == previous { return false, turn; }
    var safe;
    ghost var tokens;
    safe, tokens := Neutralize(m.content, extras);
    if safe.Unsafe? { return false, turn; }
    ok, turn := true, Turn(GemmaRole(m.role), safe.text);
  }

  /** The closed turns; the last message must come from the user. */
  method RenderTurns(extras: seq<string>, system: string, messages: seq<Message>) returns (result: Rendering, ghost turns: seq<Turn>)
    ensures result.Rendered? <==> Accepted(system) && Conversation(messages) && messages != [] && messages[|messages| - 1].role == "user"
    ensures result.Rendered? ==> result.text == Frames(turns) && Tells(turns, system, messages, extras)
  {
    turns := [];
    var safe;
    ghost var tokens;
    safe, tokens := Neutralize(system, extras);
    if safe.Unsafe? { return Refused, turns; }
    turns := [Turn("system", safe.text)];
    var parts := Frame(Turn("system", safe.text));
    assert Frames(turns) == parts by { assert turns[..0] == []; }
    assert Tells(turns, system, messages[..0], extras) && Conversation(messages[..0]);
    hide Neutralized;
    hide Conversation;
    hide Tells;
    hide Accepted;
    hide Frame;
    var k := 0;
    while k < |messages|
      invariant k <= |messages| && Conversation(messages[..k])
      invariant parts == Frames(turns) && Tells(turns, system, messages[..k], extras)
    {
      ConversationStep(messages, k);
      var ok, turn := RenderTurn(extras, messages[k], k == 0, if k == 0 then "" else messages[k - 1].role);
      if !ok { return Refused, turns; }
      TellsStep(turns, system, messages, k, turn.content, extras);
      assert (turns + [turn])[..|turns|] == turns;
      parts := parts + Frame(turn);
      turns := turns + [turn];
      k := k + 1;
    }
    assert messages[..k] == messages;
    if messages == [] || messages[|messages| - 1].role != "user" { return Refused, turns; }
    result := Rendered(parts);
  }

  lemma EncodeStarts(t: Transcript)
    requires t.turns != []
    ensures !("<bos>" <= Encode(t))
  {
    FramesCons(t.turns);
    assert Encode(t)[..2] == SOT[..2];
    assert Encode(t)[..2][1] == '|' && "<bos>"[1] == 'b';
  }

  /** `render_gemma4_chat`; `gemma` says whether the tokenizer has the turn tokens. */
  method Render(gemma: bool, extras: seq<string>, system: string, messages: seq<Message>, partial: Option<string>)
    returns (result: Rendering, ghost transcript: Transcript)
    ensures result.Rendered? <==> gemma && Renderable(system, messages, partial)
    ensures result.Rendered? ==> Parse(result.text) == Read(transcript) && result.text == Encode(transcript)
    ensures result.Rendered? ==> Tells(transcript.turns, system, messages, extras) && Continues(transcript.partial, partial, extras)
  {
    transcript := Transcript([], "");
    hide Accepted;
    hide Conversation;
    hide Parse;
    hide Framed;
    hide Frames;
    if !gemma { return Refused, transcript; }
    ghost var turns;
    result, turns := RenderTurns(extras, system, messages);
    if result.Refused? { return; }
    var rendered := result.text + SOT + "model\n";
    ghost var open := "";
    if partial.Some? {
      var safe;
      ghost var tokens;
      safe, tokens := Neutralize(partial.value, extras);
      if safe.Unsafe? { return Refused, transcript; }
      rendered := rendered + safe.text;
      open := safe.text;
      SafeIsNotEmpty(partial.value, open);
    }
    transcript := Transcript(turns, open);
    assert rendered == Encode(transcript);
    TellsIsFramed(turns, system, messages, open, partial, extras);
    RoundTrip(transcript);
    EncodeStarts(transcript);
    if "<bos>" <= rendered { return Refused, transcript; }
    result := Rendered(rendered);
  }

  lemma SafeIsNotEmpty(original: string, text: string)
    requires Accepted(original) && Clean(original, text)
    ensures text != ""
  {
    CleanIsEnclosed(original, text);
  }
}
