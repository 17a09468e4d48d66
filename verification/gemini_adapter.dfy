/**
 * Messages merged in place into alternating turns
 * (packages/ai-core/src/providers/gemini-message-adapter.ts).
 */
module GeminiAdapter {
  import opened Texts
  import opened TextMeaning

  datatype Role = System | User | Assistant

  datatype Message = Message(role: Role, content: Text)

  datatype TurnRole = AsUser | AsModel

  /** One turn; the source gives every turn exactly one part. */
  datatype Content = Content(role: TurnRole, text: Text)

  datatype RequestParts = RequestParts(systemInstruction: Option<Text>, contents: seq<Content>)

  const BLANK_LINE: Text := [10, 10]

  const OPENING: Content := Content(AsUser, Lit("(contexto)"))

  function TurnRoleOf(role: Role): TurnRole {
    if role == Assistant then AsModel else AsUser
  }

  function Spoken(messages: seq<Message>): seq<Message> {
    if messages == [] then []
    else (if messages[0].role == System then [] else [messages[0]]) + Spoken(messages[1..])
  }

  function Contents(messages: seq<Message>, role: Role): seq<Text> {
    if messages == [] then []
    else (if messages[0].role == role then [messages[0].content] else []) + Contents(messages[1..], role)
  }

  // ------------------------------------------------------------ runs

  /** How many messages from the first on have its role. */
  function RunLength(spoken: seq<Message>): (n: nat)
    ensures n <= |spoken| && (spoken != [] ==> n > 0)
  {
    if spoken == [] then 0
    else if |spoken| > 1 && TurnRoleOf(spoken[1].role) == TurnRoleOf(spoken[0].role) then 1 + RunLength(spoken[1..])
    else 1
  }

  function Said(messages: seq<Message>): (t: seq<Text>)
    ensures |t| == |messages|
  {
    seq(|messages|, i requires 0 <= i < |messages| => messages[i].content)
  }

  /** One turn for each maximal run of messages of one role, joined by a blank line. */
  function Turns(spoken: seq<Message>): seq<Content>
    decreases |spoken|
  {
    if spoken == [] then []
    else
      var n := RunLength(spoken);
      [Content(TurnRoleOf(spoken[0].role), Join(Said(spoken[..n]), BLANK_LINE))] + Turns(spoken[n..])
  }

  /** What the source sends: the turns, or one empty turn of the user, after an opening one if the model speaks first. */
  function Sent(messages: seq<Message>): seq<Content> {
    var turns := Turns(Spoken(messages));
    if turns == [] then [Content(AsUser, [])]
    else if turns[0].role == AsModel then [OPENING] + turns
    else turns
  }

  function Instruction(messages: seq<Message>): Option<Text> {
    var text := Trim(Join(Contents(messages, System), BLANK_LINE));
    if text == [] then None else Some(text)
  }

  // ------------------------------------------------------------ one more message

  predicate Alternates(turns: seq<Content>) {
    forall i | 0 < i < |turns| :: turns[i - 1].role != turns[i].role
  }

  /** The list after one message: its last turn overwritten, or one turn more. */
  function Pushed(turns: seq<Content>, m: Message): seq<Content> {
    var n, role := |turns|, TurnRoleOf(m.role);
    if n > 0 && turns[n - 1].role == role then turns[n - 1 := Content(role, turns[n - 1].text + BLANK_LINE + m.content)]
    else turns + [Content(role, m.content)]
  }

  lemma {:induction false} JoinMore(parts: seq<Text>, part: Text, separator: Text)
    requires parts != []
    ensures Join(parts + [part], separator) == Join(parts, separator) + separator + part
  {
    if |parts| == 1 {
      assert (parts + [part])[1..] == [part];
    } else {
      assert (parts + [part])[1..] == parts[1..] + [part];
      JoinMore(parts[1..], part, separator);
    }
  }

  lemma {:induction false} RunOfMore(spoken: seq<Message>, m: Message)
    requires spoken != []
    ensures RunLength(spoken + [m]) == RunLength(spoken)
            + if RunLength(spoken) == |spoken| && TurnRoleOf(m.role) == TurnRoleOf(spoken[0].role) then 1 else 0
  {
    if |spoken| > 1 && TurnRoleOf(spoken[1].role) == TurnRoleOf(spoken[0].role) {
      assert (spoken + [m])[1..] == spoken[1..] + [m];
      RunOfMore(spoken[1..], m);
    } else if |spoken| == 1 {
      assert (spoken + [m])[1..] == [m];
    }
  }

  /** Grouping one message more is pushing it. */
  lemma {:induction false} TurnsOfMore(spoken: seq<Message>, m: Message)
    ensures Turns(spoken + [m]) == Pushed(Turns(spoken), m)
    decreases |spoken|
  {
    if spoken == [] {
      assert [] + [m] == [m] && Said([m]) == [m.content];
      assert Turns([m]) == [Content(TurnRoleOf(m.role), m.content)];
    } else {
      var n := RunLength(spoken);
      RunOfMore(spoken, m);
      if n < |spoken| {
        assert (spoken + [m])[..n] == spoken[..n] && (spoken + [m])[n..] == spoken[n..] + [m];
        TurnsOfMore(spoken[n..], m);
        PushedLater(Turns(spoken)[0], Turns(spoken[n..]), m);
      } else {
        assert spoken[n..] == [] && spoken[..n] == spoken;
        if TurnRoleOf(m.role) == TurnRoleOf(spoken[0].role) {
          assert (spoken + [m])[..n + 1] == spoken + [m] && (spoken + [m])[n + 1..] == [];
          assert Said(spoken + [m]) == Said(spoken) + [m.content];
          JoinMore(Said(spoken), m.content, BLANK_LINE);
        } else {
          assert (spoken + [m])[..n] == spoken && (spoken + [m])[n..] == [m];
          assert Said([m]) == [m.content] && [m][1..] == [];
        }
      }
    }
  }

  lemma PushedLater(first: Content, rest: seq<Content>, m: Message)
    requires rest != []
    ensures Pushed([first] + rest, m) == [first] + Pushed(rest, m)
  {
  }

  function Heard(m: Message): seq<Message> {
    if m.role == System then [] else [m]
  }

  lemma SpokenStep(m: Message, rest: seq<Message>)
    ensures Spoken([m] + rest) == Heard(m) + Spoken(rest) && Spoken([]) == []
  {
    assert ([m] + rest)[1..] == rest;
  }

  lemma {:induction false} SpokenOfMore(messages: seq<Message>, m: Message)
    ensures Spoken(messages + [m]) == Spoken(messages) + Heard(m)
  {
    hide Spoken, Heard;
    if messages == [] {
      SpokenStep(m, []);
      assert [] + [m] == [m] + [];
    } else {
      SpokenOfMore(messages[1..], m);
      SpokenStep(messages[0], messages[1..]);
      SpokenStep(messages[0], messages[1..] + [m]);
      assert messages == [messages[0]] + messages[1..] && messages + [m] == [messages[0]] + (messages[1..] + [m]);
    }
  }

  method ToGeminiRequestParts(messages: seq<Message>) returns (r: RequestParts)
    ensures r == RequestParts(Instruction(messages), Sent(messages))
  {
    hide Turns, Spoken, Join, Trim;
    var contents: seq<Content> := [];
    NothingSpoken();
    for i := 0 to |messages|
      invariant contents == Turns(Spoken(messages[..i]))
    {
      var m := messages[i];
      assert messages[..i + 1] == messages[..i] + [m];
      SpokenOfMore(messages[..i], m);
      TurnsOfMore(Spoken(messages[..i]), m);
      if m.role == System {
        assert Spoken(messages[..i]) + [] == Spoken(messages[..i]);
        continue;
      }
      var role := if m.role == Assistant then AsModel else AsUser;
      if |contents| > 0 && contents[|contents| - 1].role == role {
        var merged := contents[|contents| - 1].text + [10, 10] + m.content;
        contents := contents[|contents| - 1 := Content(role, merged)];
        continue;
      }
      contents := contents + [Content(role, m.content)];
    }
    assert messages[..|messages|] == messages;
    if |contents| == 0 {
      contents := contents + [Content(AsUser, [])];
    }
    if contents[0].role == AsModel {
      contents := [Content(AsUser, Lit("(contexto)"))] + contents;
    }
    r := RequestParts(Instruction(messages), contents);
  }

  lemma NothingSpoken()
    ensures Turns(Spoken([])) == []
  {
  }

  // ------------------------------------------------------------ what is sent

  lemma {:induction false} RunEnds(spoken: seq<Message>)
    requires RunLength(spoken) < |spoken|
    ensures TurnRoleOf(spoken[RunLength(spoken)].role) != TurnRoleOf(spoken[0].role)
  {
    if |spoken| > 1 && TurnRoleOf(spoken[1].role) == TurnRoleOf(spoken[0].role) {
      RunEnds(spoken[1..]);
    }
  }

  lemma {:induction false} TurnsAlternate(spoken: seq<Message>)
    ensures Alternates(Turns(spoken))
    ensures spoken != [] ==> Turns(spoken) != [] && Turns(spoken)[0].role == TurnRoleOf(spoken[0].role)
    decreases |spoken|
  {
    if spoken != [] {
      var n := RunLength(spoken);
      TurnsAlternate(spoken[n..]);
      if n < |spoken| {
        RunEnds(spoken);
      }
    }
  }

  /**
   * What is sent is never empty, starts with the user, and strictly alternates; the opening turn is there
   * exactly when the first message that is not of the system is the assistant's.
   */
  lemma SentAlternates(messages: seq<Message>)
    ensures var sent, spoken := Sent(messages), Spoken(messages);
            && sent != [] && sent[0].role == AsUser && Alternates(sent)
            && (spoken != [] && spoken[0].role == Assistant ==> sent == [OPENING] + Turns(spoken))
            && (spoken != [] && spoken[0].role != Assistant ==> sent == Turns(spoken))
            && (spoken == [] ==> sent == [Content(AsUser, [])])
  {
    TurnsAlternate(Spoken(messages));
    SpokenIsNotSystem(messages);
  }

  lemma SpokenIsNotSystem(messages: seq<Message>)
    ensures forall m | m in Spoken(messages) :: m.role != System
  {
  }

  /** Nothing said is lost or reordered: the turns, cut back to their messages, are the messages. */
  lemma {:induction false} TurnsCover(spoken: seq<Message>)
    ensures exists runs: seq<seq<Message>> :: Runs(spoken, runs) && TurnsOfRuns(runs) == Turns(spoken)
    decreases |spoken|
  {
    if spoken == [] {
      assert Runs(spoken, []) && TurnsOfRuns([]) == [];
    } else {
      var n := RunLength(spoken);
      TurnsCover(spoken[n..]);
      var rest :| Runs(spoken[n..], rest) && TurnsOfRuns(rest) == Turns(spoken[n..]);
      RunIsOneRole(spoken);
      var runs := [spoken[..n]] + rest;
      assert runs[1..] == rest;
      assert Runs(spoken, runs);
      assert TurnsOfRuns(runs) == Turns(spoken);
    }
  }

  /** The runs, one after the other, are the messages, and each is not empty and of one role. */
  predicate Runs(spoken: seq<Message>, runs: seq<seq<Message>>) {
    if runs == [] then spoken == []
    else
      && runs[0] != [] && runs[0] <= spoken && OneRole(runs[0])
      && Runs(spoken[|runs[0]|..], runs[1..])
  }

  predicate OneRole(run: seq<Message>) {
    forall i | 0 <= i < |run| :: TurnRoleOf(run[i].role) == TurnRoleOf(run[0].role)
  }

  function TurnsOfRuns(runs: seq<seq<Message>>): seq<Content>
  {
    if runs == [] then []
    else (if runs[0] == [] then [] else [Content(TurnRoleOf(runs[0][0].role), Join(Said(runs[0]), BLANK_LINE))]) + TurnsOfRuns(runs[1..])
  }

  lemma {:induction false} RunIsOneRole(spoken: seq<Message>)
    ensures OneRole(spoken[..RunLength(spoken)])
  {
    if |spoken| > 1 && TurnRoleOf(spoken[1].role) == TurnRoleOf(spoken[0].role) {
      RunIsOneRole(spoken[1..]);
      var n := RunLength(spoken[1..]);
      assert spoken[..n + 1] == [spoken[0]] + spoken[1..][..n];
    }
  }

  // ------------------------------------------------------------ the system instruction

  /** What the system says, message by message, collected from the end. */
  function SystemTexts(messages: seq<Message>): seq<Text> {
    if messages == [] then []
    else
      var n := |messages| - 1;
      SystemTexts(messages[..n]) + if messages[n].role.System? then [messages[n].content] else []
  }

  lemma {:induction false} ContentsOfMore(messages: seq<Message>, m: Message)
    ensures Contents(messages + [m], System) == Contents(messages, System) + if m.role.System? then [m.content] else []
  {
    if messages == [] {
      assert [] + [m] == [m] && [m][1..] == [];
    } else {
      assert (messages + [m])[1..] == messages[1..] + [m];
      ContentsOfMore(messages[1..], m);
    }
  }

  lemma {:induction false} SystemTextsAre(messages: seq<Message>)
    ensures Contents(messages, System) == SystemTexts(messages)
  {
    if messages != [] {
      var n := |messages| - 1;
      SystemTextsAre(messages[..n]);
      ContentsOfMore(messages[..n], messages[n]);
      assert messages == messages[..n] + [messages[n]];
    }
  }

  predicate AllWhite(t: Text) {
    forall k | 0 <= k < |t| :: White(t[k])
  }

  lemma {:induction false} ChainWhite(parts: seq<Text>)
    ensures AllWhite(Chain(parts, [10, 10])) <==> TextsWhite(parts)
  {
    hide White;
    if |parts| > 1 {
      var n := |parts| - 1;
      ChainWhite(parts[..n]);
      TextsWhiteMore(parts[..n], parts[n]);
      assert parts == parts[..n] + [parts[n]];
      WhiteBetween(Chain(parts[..n], [10, 10]), parts[n]);
    }
  }

  lemma WhiteBetween(a: Text, b: Text)
    ensures AllWhite(a + [10, 10] + b) <==> AllWhite(a) && AllWhite(b)
  {
    var t := a + [10, 10] + b;
    assert forall k | 0 <= k < |a| :: t[k] == a[k];
    assert forall k | 0 <= k < |b| :: t[|a| + 2 + k] == b[k];
    assert White(10);
    hide White;
    forall k | 0 <= k < |t| && AllWhite(a) && AllWhite(b) ensures White(t[k]) {
      if k >= |a| + 2 { assert t[k] == b[k - |a| - 2]; }
    }
  }

  /**
   * There is an instruction exactly when the system says something that is not white space: it is what the system
   * says, message by message with a blank line between, without the white space at both ends.
   */
  lemma InstructionTells(messages: seq<Message>)
    ensures Instruction(messages).None? <==> SystemWhite(messages)
    ensures var said := Chain(SystemTexts(messages), [10, 10]);
            Instruction(messages).Some? ==>
              exists i, j | 0 <= i <= j <= |said| :: Core(said, i, j) && Instruction(messages).value == said[i..j]
  {
    var said := Chain(SystemTexts(messages), [10, 10]);
    SystemTextsAre(messages);
    JoinIsChain(SystemTexts(messages), [10, 10]);
    hide Chain, Join, Contents, SystemTexts, White, TextsWhite, SystemWhite;
    var i, j := TrimIsCore(said);
    BlankIff(said);
    ChainWhite(SystemTexts(messages));
    SystemTextsWhite(messages);
  }

  predicate TextsWhite(texts: seq<Text>) {
    forall i | 0 <= i < |texts| :: AllWhite(texts[i])
  }

  predicate SystemWhite(messages: seq<Message>) {
    forall i | 0 <= i < |messages| && messages[i].role.System? :: AllWhite(messages[i].content)
  }

  lemma TextsWhiteMore(texts: seq<Text>, t: Text)
    ensures TextsWhite(texts + [t]) <==> TextsWhite(texts) && AllWhite(t)
  {
    hide AllWhite;
    assert (texts + [t])[|texts|] == t && forall i | 0 <= i < |texts| :: (texts + [t])[i] == texts[i];
  }

  lemma {:induction false} SystemTextsWhite(messages: seq<Message>)
    ensures TextsWhite(SystemTexts(messages)) <==> SystemWhite(messages)
  {
    hide AllWhite;
    if messages != [] {
      var n := |messages| - 1;
      SystemTextsWhite(messages[..n]);
      TextsWhiteMore(SystemTexts(messages[..n]), messages[n].content);
      hide TextsWhite, SystemTexts;
      assert SystemWhite(messages) <==> SystemWhite(messages[..n]) && (messages[n].role.System? ==> AllWhite(messages[n].content)) by {
        assert forall i | 0 <= i < n :: messages[..n][i] == messages[i];
      }
      SystemTextsLast(messages);
    }
  }

  lemma SystemTextsLast(messages: seq<Message>)
    requires messages != []
    ensures var n := |messages| - 1;
            SystemTexts(messages) == if messages[n].role.System? then SystemTexts(messages[..n]) + [messages[n].content]
                                     else SystemTexts(messages[..n])
  {
  }
}
