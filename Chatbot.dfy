/** The request handler of the chatbot: it strips the message, extracts the engine speed
    and the coolant temperature, asks for what is missing, looks the reading up in the
    reference table, falls back to the threshold diagnoser, and formats the catalog entry. */
module Chatbot {
  import opened Wrappers
  import opened Scanner
  import opened Decimal
  import opened Catalog
  import opened Diagnoser
  import opened ReferenceTable
  import opened Rounding
  import opened Whitespace

  /** The six readings the diagnoser takes; only the first two come from the text. */
  datatype ParsedInput = ParsedInput(
    rpm: Option<real>,
    coolTemp: Option<real>,
    oilPress: real,
    fuelPress: real,
    coolPress: real,
    oilTemp: real)

  /** `parse_input`: the first number of the text is the engine speed, the second the
      coolant temperature; the other four readings keep their defaults. */
  function ParseInput(text: string): (p: ParsedInput)
    ensures p.oilPress == 3.0 && p.fuelPress == 15.0 && p.coolPress == 2.0 && p.oilTemp == 80.0
    ensures p.rpm.Some? <==> |Tokens(text)| >= 1
    ensures p.coolTemp.Some? <==> |Tokens(text)| >= 2
    ensures p.rpm.Some? ==> p.rpm.value == DecimalValue(Tokens(text)[0])
    ensures p.coolTemp.Some? ==> p.coolTemp.value == DecimalValue(Tokens(text)[1])
  {
    var numbers := Tokens(text);
    ParsedInput(
      if |numbers| >= 1 then Some(DecimalValue(numbers[0])) else None,
      if |numbers| >= 2 then Some(DecimalValue(numbers[1])) else None,
      3.0, 15.0, 2.0, 80.0)
  }

  /** The engine speed is missing exactly when the text holds no digit at all. */
  lemma RpmMissingIffNoDigit(text: string)
    ensures ParseInput(text).rpm.None? <==> NoDigitIn(text, 0, |text|)
  {
    if NoDigitIn(text, 0, |text|) {
      NoDigitNoTokens(text);
    } else {
      var k :| 0 <= k < |text| && IsDigit(text[k]);
      DigitGivesToken(text, k);
    }
  }

  /** Numbers after the second one are ignored. */
  lemma LaterNumbersIgnored(a: string, b: string)
    requires |Tokens(a)| >= 2 && |Tokens(b)| >= 2
    requires Tokens(a)[..2] == Tokens(b)[..2]
    ensures ParseInput(a) == ParseInput(b)
  {
    assert Tokens(a)[0] == Tokens(a)[..2][0] && Tokens(a)[1] == Tokens(a)[..2][1];
    assert Tokens(b)[0] == Tokens(b)[..2][0] && Tokens(b)[1] == Tokens(b)[..2][1];
  }

  /** The label for a reading with both numbers: the first matching table row's, else
      the diagnoser's on the parsed readings. */
  function Condition(table: seq<Row>, p: ParsedInput): (l: Label)
    requires p.rpm.Some? && p.coolTemp.Some?
  {
    match TableCondition(table, p.rpm.value, p.coolTemp.value)
    case Some(l) => l
    case None => Diagnose(p.rpm.value, p.oilPress, p.fuelPress, p.coolPress, p.oilTemp, p.coolTemp.value)
  }

  /** When the table has no matching row, the defaults decide: the label is "Overheating"
      exactly above 90 degrees and code 1 otherwise; the pressure faults never come out. */
  lemma MissDependsOnCoolantOnly(table: seq<Row>, text: string)
    requires ParseInput(text).rpm.Some? && ParseInput(text).coolTemp.Some?
    requires TableCondition(table, ParseInput(text).rpm.value, ParseInput(text).coolTemp.value).None?
    ensures var l, t := Condition(table, ParseInput(text)), ParseInput(text).coolTemp.value;
      && (l == Name("Overheating") <==> t > 90.0)
      && (l == Code(1) <==> t <= 90.0)
      && l != Name("Low Oil Pressure") && l != Name("Low Fuel Pressure")
  {
    var p := ParseInput(text);
    FirstRuleWins(p.rpm.value, p.oilPress, p.fuelPress, p.coolPress, p.oilTemp, p.coolTemp.value);
  }

  /** A matching row decides the label whatever the diagnoser would say. */
  lemma MatchDecides(table: seq<Row>, p: ParsedInput, k: nat)
    requires p.rpm.Some? && p.coolTemp.Some?
    requires FirstMatch(table, p.rpm.value, p.coolTemp.value) == Some(k)
    ensures k < |table| && Condition(table, p) == table[k].condition
  {
    assert TableCondition(table, p.rpm.value, p.coolTemp.value) == Some(table[k].condition);
  }

  // Each fixed message is written in two pieces: the verifier reads the characters
  // of short string literals only.
  const RpmPrompt := "Please include the RPM value " + "(e.g., '700 81')."
  const CoolantPrompt := "Please include the coolant " + "temperature (e.g., '700 81')."
  const FallbackReply := "Please provide two numbers like: " + "'700 81' (RPM and Coolant Temp)"

  /** The three-line reply: problem, causes, manual section, separated by `<br>`. */
  function FormatReply(e: Entry): string {
    "Condition: " + e.problem + "<br>Possible Causes: " + e.cause + "<br>Refer to: " + e.manual
  }

  /** A formatted diagnosis is never one of the three fixed messages. */
  lemma ReplyIsNoPrompt(e: Entry)
    ensures FormatReply(e) != RpmPrompt && FormatReply(e) != CoolantPrompt && FormatReply(e) != FallbackReply
  {
    assert FormatReply(e)[0] == 'C';
    assert RpmPrompt[0] == 'P' && CoolantPrompt[0] == 'P' && FallbackReply[0] == 'P';
  }

  /** The fixed messages differ from one another. */
  lemma PromptsDistinct()
    ensures RpmPrompt != CoolantPrompt && RpmPrompt != FallbackReply && CoolantPrompt != FallbackReply
  {
    assert RpmPrompt[7] == 'i' && FallbackReply[7] == 'p';
    assert CoolantPrompt[7] == 'i';
  }

  /** The `/chat` handler. `message` is None when the request carries no text message
      (a missing key or a value that is not a string), which the source turns into the
      fixed instructional reply. */
  function Chat(table: seq<Row>, message: Option<string>): (reply: string)
    ensures reply == FallbackReply <==> message.None?
    ensures reply == RpmPrompt <==> message.Some? && Tokens(message.value) == []
    ensures reply == CoolantPrompt <==> message.Some? && |Tokens(message.value)| == 1
    ensures message.Some? && |Tokens(message.value)| >= 2 ==>
      var numbers := Tokens(message.value);
      var rpm, coolTemp := DecimalValue(numbers[0]), DecimalValue(numbers[1]);
      reply == FormatReply(Lookup(
        match TableCondition(table, rpm, coolTemp)
        case Some(l) => l
        case None => Diagnose(rpm, 3.0, 15.0, 2.0, 80.0, coolTemp)))
  {
    PromptsDistinct();
    match message
    case None => FallbackReply
    case Some(m) =>
      var p := ParseInput(Strip(m));
      StripKeepsTokens(m);
      if p.rpm.None? then RpmPrompt
      else if p.coolTemp.None? then CoolantPrompt
      else
        var e := Lookup(Condition(table, p));
        ReplyIsNoPrompt(e);
        FormatReply(e)
  }

  /** The scanner on a typical message: two numbers separated by a space. */
  lemma TokensExample()
    ensures Tokens("700 95") == ["700", "95"]
  {
    var s := "700 95";
    assert s[0] == '7' && s[1] == '0' && s[2] == '0' && s[3] == ' ' && s[4] == '9' && s[5] == '5';
    assert DigitRunEnd(s, 0) == 3 && MatchEnd(s, 0) == 3;
    assert DigitRunEnd(s, 4) == 6 && MatchEnd(s, 4) == 6;
    assert ScanFrom(s, 4) == [Span(4, 6)];
    assert ScanFrom(s, 0) == [Span(0, 3), Span(4, 6)];
    assert Tokens(s) == [s[0..3], s[4..6]];
    assert s[0..3] == "700" && s[4..6] == "95";
  }

  /** The readings parsed from that message. */
  lemma ParseExample()
    ensures ParseInput(" 700 95") == ParsedInput(Some(700.0), Some(95.0), 3.0, 15.0, 2.0, 80.0)
  {
    TokensExample();
    SurroundedTokens(" ", "700 95", "");
    assert " " + ("700 95" + "") == " 700 95";
    ValueExamples();
  }

  /** With both numbers present, the reply formats the catalog entry of the parsed reading's
      condition. */
  lemma ChatReportsCondition(table: seq<Row>, m: string)
    requires |Tokens(m)| >= 2
    ensures ParseInput(m).rpm.Some? && ParseInput(m).coolTemp.Some?
    ensures Chat(table, Some(m)) == FormatReply(Lookup(Condition(table, ParseInput(m))))
  {
  }

  /** A hot reading with an empty table is diagnosed as overheating. */
  lemma DiagnosisExample()
    ensures Chat([], Some(" 700 95")) == FormatReply(Overheating)
  {
    var m := " 700 95";
    ParseExample();
    ChatReportsCondition([], m);
    assert TableCondition([], 700.0, 95.0).None?;
    assert Condition([], ParseInput(m)) == Name("Overheating");
  }

  /** A matching row overrides the diagnoser, which would have said overheating. */
  lemma TableExample()
    ensures Chat([Row(699.6, 97.0, Code(1))], Some(" 700 95")) == FormatReply(Normal)
  {
    var m, table := " 700 95", [Row(699.6, 97.0, Code(1))];
    ParseExample();
    ChatReportsCondition(table, m);
    var p := ParseInput(m);
    assert p.rpm.value == 700.0 && p.coolTemp.value == 95.0;
    MatchExample();
    assert TableCondition(table, 700.0, 95.0) == Some(Code(1));
    assert Condition(table, p) == Code(1);
    LookupKnown();
  }

  /** The three fixed replies: no number, one number, no text message. */
  lemma PromptExamples(table: seq<Row>)
    ensures Chat(table, Some("hot")) == RpmPrompt
    ensures Chat(table, Some("700")) == CoolantPrompt
    ensures Chat(table, None) == FallbackReply
  {
    assert NoDigitIn("hot", 0, 3) by {
      assert "hot"[0] == 'h' && "hot"[1] == 'o' && "hot"[2] == 't';
    }
    NoDigitNoTokens("hot");
    var s := "700";
    assert s[0] == '7' && s[1] == '0' && s[2] == '0';
    assert DigitRunEnd(s, 0) == 3 && MatchEnd(s, 0) == 3;
    assert ScanFrom(s, 0) == [Span(0, 3)];
    assert |Tokens(s)| == 1;
  }
}
