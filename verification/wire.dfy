/** The wire message: the `carData` object built from the five state
    variables and serialised with `JSON.stringify` for the socket. */
module Wire {
  import opened Options
  import opened Command
  import opened Json

  /** The direction as the string the component stores in its state. Each
      name is non-empty and needs no escaping in a JSON string. */
  function DirectionName(d: Direction): (r: string)
    ensures |r| > 0
  {
    match d
    case Neutral => "Neutral"
    case Forward => "Forward"
    case Reverse => "Reverse"
    case Left => "Left"
    case Right => "Right"
  }

  /** The keys of the snapshot object, in insertion order. */
  const FieldKeys: seq<string> := ["direction", "speed", "headlightsOn", "hornOn", "battery"]

  function Keys(ms: seq<Member>): (ks: seq<string>)
    ensures |ks| == |ms|
    ensures forall k :: 0 <= k < |ms| ==> ks[k] == ms[k].key
    decreases |ms|
  {
    if |ms| == 0 then [] else [ms[0].key] + Keys(ms[1..])
  }

  /** The `carData` object: all five fields, keyed and ordered as declared,
      each carrying the current value. */
  function Snapshot(c: CommandState): (ms: seq<Member>)
    ensures Keys(ms) == FieldKeys
    ensures ms[0].value == Str(DirectionName(c.direction)) && ms[1].value == Int(c.speed)
    ensures ms[2].value == Bool(c.headlightsOn) && ms[3].value == Bool(c.hornOn)
    ensures ms[4].value == Int(c.battery)
  {
    [ Member(FieldKeys[0], Str(DirectionName(c.direction))),
      Member(FieldKeys[1], Int(c.speed)),
      Member(FieldKeys[2], Bool(c.headlightsOn)),
      Member(FieldKeys[3], Bool(c.hornOn)),
      Member(FieldKeys[4], Int(c.battery)) ]
  }

  /** `JSON.stringify(carData)`, through the generic object serialiser. */
  function Stringify(c: CommandState): (r: string)
    ensures r == Encode(c)
  {
    EncodeIsStringify(c);
    ObjectText(Snapshot(c))
  }

  /** The quoted direction as it appears in a message. */
  function DirectionLiteral(d: Direction): string {
    "\"" + DirectionName(d) + "\""
  }

  // The pieces between the values of a message: each key quoted and
  // followed by a colon, with the separating comma or brace in front.
  const Head: string := "{\"direction\":"
  const SpeedKey: string := ",\"speed\":"
  const HeadlightsKey: string := ",\"headlightsOn\":"
  const HornKey: string := ",\"hornOn\":"
  const BatteryKey: string := ",\"battery\":"
  const Tail: string := "}"

  /** The message sent for a snapshot, laid out piece by piece, each piece
      followed by the text of the fields after it. It is an object text that
      opens with the `direction` key; `EncodeIsStringify` shows that it is
      `JSON.stringify` of the snapshot object, and `DecodeEncode` that it
      keeps all five values. */
  function Encode(c: CommandState): (r: string)
    ensures Head <= r && |Head| < |r|
  {
    Head + (DirectionLiteral(c.direction) + SpeedText(c))
  }

  function SpeedText(c: CommandState): string {
    SpeedKey + (IntText(c.speed) + HeadlightsText(c))
  }

  function HeadlightsText(c: CommandState): string {
    HeadlightsKey + (BoolText(c.headlightsOn) + HornText(c))
  }

  function HornText(c: CommandState): string {
    HornKey + (BoolText(c.hornOn) + BatteryText(c))
  }

  function BatteryText(c: CommandState): string {
    BatteryKey + (IntText(c.battery) + Tail)
  }

  lemma DirectionQuoted(d: Direction)
    ensures Quote(DirectionName(d)) == DirectionLiteral(d)
  {
    var s := DirectionName(d);
    assert forall k :: 0 <= k < |s| ==> Plain(s[k]);
    QuotePlain(s);
  }

  // The text of the snapshot's members from the i-th on, each suffix
  // function above being one of them.

  lemma BatteryTextIsStringify(c: CommandState)
    ensures BatteryText(c) == "," + MembersText(Snapshot(c)[4..]) + "}"
  {
    var ms := Snapshot(c);
    assert ms[4..] == [ms[4]];
    ObjectLast(ms[4]);
    BatteryKeyQuoted();
  }

  lemma HornTextIsStringify(c: CommandState)
    ensures HornText(c) == "," + MembersText(Snapshot(c)[3..]) + "}"
  {
    var ms := Snapshot(c);
    assert ms[3..] == [ms[3]] + ms[4..];
    ObjectSplit(",", ms[3], ms[4..]);
    HornKeyQuoted();
    BatteryTextIsStringify(c);
  }

  lemma HeadlightsTextIsStringify(c: CommandState)
    ensures HeadlightsText(c) == "," + MembersText(Snapshot(c)[2..]) + "}"
  {
    var ms := Snapshot(c);
    assert ms[2..] == [ms[2]] + ms[3..];
    ObjectSplit(",", ms[2], ms[3..]);
    HeadlightsKeyQuoted();
    HornTextIsStringify(c);
  }

  lemma SpeedTextIsStringify(c: CommandState)
    ensures SpeedText(c) == "," + MembersText(Snapshot(c)[1..]) + "}"
  {
    var ms := Snapshot(c);
    assert ms[1..] == [ms[1]] + ms[2..];
    ObjectSplit(",", ms[1], ms[2..]);
    SpeedKeyQuoted();
    HeadlightsTextIsStringify(c);
  }

  /** The message is exactly the generic `JSON.stringify` serialisation of the
      snapshot object. */
  lemma EncodeIsStringify(c: CommandState)
    ensures Encode(c) == ObjectText(Snapshot(c))
  {
    var ms := Snapshot(c);
    assert ms == [ms[0]] + ms[1..];
    ObjectSplit("{", ms[0], ms[1..]);
    HeadQuoted();
    DirectionQuoted(c.direction);
    SpeedTextIsStringify(c);
  }

  lemma KeyQuoted(i: nat)
    requires i < |FieldKeys|
    ensures Quote(FieldKeys[i]) == "\"" + FieldKeys[i] + "\""
  {
    var s := FieldKeys[i];
    assert forall k :: 0 <= k < |s| ==> Plain(s[k]);
    QuotePlain(s);
  }

  // Each key piece is the quoted key between its separator and a colon.

  lemma HeadQuoted()
    ensures Head == "{" + Quote(FieldKeys[0]) + ":"
  {
    calc {
      "{" + Quote(FieldKeys[0]) + ":";
      { KeyQuoted(0); }
      "{" + ("\"" + "direction" + "\"") + ":";
      "{\"" + "direction" + "\":";
      "{\"direction\":";
    }
  }

  lemma SpeedKeyQuoted()
    ensures SpeedKey == "," + Quote(FieldKeys[1]) + ":"
  {
    KeyQuoted(1);
  }

  lemma HeadlightsKeyQuoted()
    ensures HeadlightsKey == "," + Quote(FieldKeys[2]) + ":"
  {
    calc {
      "," + Quote(FieldKeys[2]) + ":";
      { KeyQuoted(2); }
      "," + ("\"" + "headlightsOn" + "\"") + ":";
      ",\"" + "headlightsOn" + "\":";
      ",\"headlightsOn\":";
    }
  }

  lemma HornKeyQuoted()
    ensures HornKey == "," + Quote(FieldKeys[3]) + ":"
  {
    calc {
      "," + Quote(FieldKeys[3]) + ":";
      { KeyQuoted(3); }
      "," + ("\"" + "hornOn" + "\"") + ":";
      ",\"" + "hornOn" + "\":";
      ",\"hornOn\":";
    }
  }

  lemma BatteryKeyQuoted()
    ensures BatteryKey == "," + Quote(FieldKeys[4]) + ":"
  {
    KeyQuoted(4);
  }

  function ParseDirection(s: string): Option<Parsed<Direction>> {
    if DirectionLiteral(Neutral) <= s then Some(Parsed(Neutral, s[|DirectionLiteral(Neutral)|..]))
    else if DirectionLiteral(Forward) <= s then Some(Parsed(Forward, s[|DirectionLiteral(Forward)|..]))
    else if DirectionLiteral(Reverse) <= s then Some(Parsed(Reverse, s[|DirectionLiteral(Reverse)|..]))
    else if DirectionLiteral(Left) <= s then Some(Parsed(Left, s[|DirectionLiteral(Left)|..]))
    else if DirectionLiteral(Right) <= s then Some(Parsed(Right, s[|DirectionLiteral(Right)|..]))
    else None
  }

  lemma ParseDirectionLiteral(d: Direction, rest: string)
    ensures ParseDirection(DirectionLiteral(d) + rest) == Some(Parsed(d, rest))
  {
    var s := DirectionLiteral(d) + rest;
    assert s[..|DirectionLiteral(d)|] == DirectionLiteral(d);
    assert s[|DirectionLiteral(d)|..] == rest;
    assert s[1] == DirectionName(d)[0];
    assert s[2] == DirectionName(d)[1];
  }

  /** The inverse of `Encode`: reads a message in exactly the layout the
      component writes and rejects every other text. Each stage reads one
      key and its value and hands the rest of the text to the next. */
  function Decode(t: string): Option<CommandState> {
    var r :- Expect(Head, t);
    var d :- ParseDirection(r);
    DecodeSpeed(d.rest, d.value)
  }

  function DecodeSpeed(s: string, d: Direction): Option<CommandState> {
    var r :- Expect(SpeedKey, s);
    var sp :- ParseInt(r);
    DecodeHeadlights(sp.rest, d, sp.value)
  }

  function DecodeHeadlights(s: string, d: Direction, sp: int): Option<CommandState> {
    var r :- Expect(HeadlightsKey, s);
    var h :- ParseBool(r);
    DecodeHorn(h.rest, d, sp, h.value)
  }

  function DecodeHorn(s: string, d: Direction, sp: int, h: bool): Option<CommandState> {
    var r :- Expect(HornKey, s);
    var hn :- ParseBool(r);
    DecodeBattery(hn.rest, d, sp, h, hn.value)
  }

  function DecodeBattery(s: string, d: Direction, sp: int, h: bool, hn: bool): Option<CommandState> {
    var r :- Expect(BatteryKey, s);
    var b :- ParseInt(r);
    if b.rest == Tail then Some(CommandState(d, sp, h, hn, b.value)) else None
  }

  lemma DecodeBatteryText(c: CommandState)
    ensures DecodeBattery(BatteryText(c), c.direction, c.speed, c.headlightsOn, c.hornOn) == Some(c)
  {
    ExpectLiteral(BatteryKey, IntText(c.battery) + Tail);
    ParseIntText(c.battery, Tail);
  }

  lemma DecodeHornText(c: CommandState)
    ensures DecodeHorn(HornText(c), c.direction, c.speed, c.headlightsOn) == Some(c)
  {
    ExpectLiteral(HornKey, BoolText(c.hornOn) + BatteryText(c));
    ParseBoolText(c.hornOn, BatteryText(c));
    DecodeBatteryText(c);
  }

  lemma DecodeHeadlightsText(c: CommandState)
    ensures DecodeHeadlights(HeadlightsText(c), c.direction, c.speed) == Some(c)
  {
    ExpectLiteral(HeadlightsKey, BoolText(c.headlightsOn) + HornText(c));
    ParseBoolText(c.headlightsOn, HornText(c));
    DecodeHornText(c);
  }

  lemma DecodeSpeedText(c: CommandState)
    ensures DecodeSpeed(SpeedText(c), c.direction) == Some(c)
  {
    ExpectLiteral(SpeedKey, IntText(c.speed) + HeadlightsText(c));
    assert HeadlightsText(c)[0] == ',';
    ParseIntText(c.speed, HeadlightsText(c));
    DecodeHeadlightsText(c);
  }

  /** Every message decodes back to the snapshot it was made from. */
  lemma DecodeEncode(c: CommandState)
    ensures Decode(Encode(c)) == Some(c)
  {
    ExpectLiteral(Head, DirectionLiteral(c.direction) + SpeedText(c));
    ParseDirectionLiteral(c.direction, SpeedText(c));
    DecodeSpeedText(c);
  }

  /** Distinct snapshots never produce the same message. */
  lemma EncodeInjective(a: CommandState, b: CommandState)
    ensures Encode(a) == Encode(b) <==> a == b
  {
    DecodeEncode(a);
    DecodeEncode(b);
  }

  lemma Regroup(a0: string, a1: string, a2: string, a3: string, a4: string, a5: string,
                 a6: string, a7: string, a8: string, a9: string, a10: string)
    ensures a0 + (a1 + (a2 + (a3 + (a4 + (a5 + (a6 + (a7 + (a8 + (a9 + a10)))))))))
         == a0 + a1 + a2 + a3 + a4 + a5 + a6 + a7 + a8 + a9 + a10
  {
  }

  /** Every message is one flat object with exactly the five keys, in the
      order direction, speed, headlightsOn, hornOn, battery, each followed by
      the snapshot's value for that field. */
  lemma MessageText(c: CommandState)
    ensures Encode(c)
            == "{\"direction\":" + DirectionLiteral(c.direction)
             + ",\"speed\":" + IntText(c.speed)
             + ",\"headlightsOn\":" + BoolText(c.headlightsOn)
             + ",\"hornOn\":" + BoolText(c.hornOn)
             + ",\"battery\":" + IntText(c.battery) + "}"
  {
    Regroup(Head, DirectionLiteral(c.direction), SpeedKey, IntText(c.speed),
            HeadlightsKey, BoolText(c.headlightsOn), HornKey, BoolText(c.hornOn),
            BatteryKey, IntText(c.battery), Tail);
  }
}
