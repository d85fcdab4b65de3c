/** The car controller as an event-trace machine: UI intents and socket
    events change the command state and the connection, and the effect keyed
    on `[direction, speed, headlightsOn, hornOn, battery, webSocket]` sends
    the full snapshot whenever one of those changed and the socket is open. */
module Controller {
  import opened Command
  import opened Channel
  import Wire
  import Json
  import opened Options

  /** What can happen to the component: a control is used, the socket opens,
      the device starts the closing handshake, the socket closes or errs, or
      the component unmounts. */
  datatype Event =
    | Ui(i: Intent)
    | SocketOpen
    | SocketClosing
    | SocketClose
    | SocketError
    | Unmount

  /** The component's observable state and the trace of messages sent. */
  datatype Session = Session(cmd: CommandState, conn: Conn, mounted: bool, sent: seq<string>)

  /** Right after mount. The effect also runs once on mount, but no handle is
      stored yet, so nothing is sent. */
  const Start: Session := Session(Command.Initial, Channel.Created, true, [])

  /** What can happen: UI intents are those the controls can raise. */
  predicate AdmissibleEvent(e: Event) {
    e.Ui? ==> Admissible(e.i)
  }

  predicate AllAdmissibleEvents(es: seq<Event>) {
    forall k :: 0 <= k < |es| ==> AdmissibleEvent(es[k])
  }

  /** The handlers, without the effect. Intents need the mounted UI; socket
      events the browser would not dispatch in the current `readyState` do
      not happen; the cleanup runs once, at unmount. The device starting the
      closing handshake runs no handler but changes `readyState`. */
  function Handle(s: Session, e: Event): (r: Session)
    requires AdmissibleEvent(e)
    ensures r.sent == s.sent
    ensures r.cmd != s.cmd ==> e.Ui? && s.mounted
    ensures r.conn != s.conn ==> !e.Ui?
    ensures r.mounted <==> s.mounted && !e.Unmount?
  {
    match e
    case Ui(i) => if s.mounted then s.(cmd := Apply(s.cmd, i)) else s
    case SocketOpen => if OpenFires(s.conn) then s.(conn := OnOpen(s.conn, s.mounted)) else s
    case SocketClosing => if ClosingStarts(s.conn) then s.(conn := OnClosing(s.conn)) else s
    case SocketClose => if CloseFires(s.conn) then s.(conn := OnClose(s.conn, s.mounted)) else s
    case SocketError => s.(conn := OnError(s.conn))
    case Unmount => if s.mounted then s.(conn := Teardown(s.conn), mounted := false) else s
  }

  /** Whether the effect re-runs: one of its dependencies changed value. The
      five fields change exactly when the message they encode changes. */
  predicate DepsChanged(before: Session, after: Session): (r: bool)
    ensures r <==> Wire.Encode(before.cmd) != Wire.Encode(after.cmd)
                   || before.conn.stored != after.conn.stored
  {
    Wire.EncodeInjective(before.cmd, after.cmd);
    before.cmd != after.cmd || before.conn.stored != after.conn.stored
  }

  /** One event: its handler, then the effect, which sends the snapshot of
      the new state when a dependency changed and the socket can send. */
  function Step(s: Session, e: Event): (r: Session)
    requires AdmissibleEvent(e)
    ensures r.(sent := s.sent) == Handle(s, e)
    ensures r.sent == s.sent || r.sent == s.sent + [Wire.Encode(r.cmd)]
    ensures r.sent != s.sent <==> DepsChanged(s, r) && CanSend(r.conn)
  {
    var t := Handle(s, e);
    if DepsChanged(s, t) then t.(sent := Send(t.conn, Wire.Encode(t.cmd), s.sent)) else t
  }

  /** The events processed one after another. */
  function Run(s: Session, es: seq<Event>): (r: Session)
    requires AllAdmissibleEvents(es)
    ensures s.sent <= r.sent
    decreases |es|
  {
    if |es| == 0 then s else Run(Step(s, es[0]), es[1..])
  }

  // ---------------------------------------------------------------------
  // Reachable-state invariant

  /** A message that is the encoding of a snapshot satisfying the command
      invariant. */
  predicate WellFormedMessage(m: string) {
    var d := Wire.Decode(m);
    d.Some? && Inv(d.value) && Wire.Encode(d.value) == m
  }

  /** The synchronisation property: whenever the socket can send, the last
      message sent is the snapshot of the current state. */
  predicate Synced(s: Session) {
    CanSend(s.conn) ==> |s.sent| > 0 && s.sent[|s.sent| - 1] == Wire.Encode(s.cmd)
  }

  /** The reachable-state invariant. While mounted, the handle is stored from
      `open` until `close`, which spans OPEN and CLOSING. */
  predicate SessionInv(s: Session) {
    && Inv(s.cmd)
    && (s.mounted ==> (s.conn.stored <==> s.conn.socket == Open || s.conn.socket == Closing))
    && (s.mounted <==> s.conn.closeCalls == 0)
    && s.conn.closeCalls <= 1
    && Synced(s)
    && (!s.mounted ==> s.conn.socket == Closing || s.conn.socket == Closed)
    && forall k :: 0 <= k < |s.sent| ==> WellFormedMessage(s.sent[k])
  }

  lemma StartInv()
    ensures SessionInv(Start)
  {
  }

  lemma {:induction false} StepInv(s: Session, e: Event)
    requires SessionInv(s) && AdmissibleEvent(e)
    ensures SessionInv(Step(s, e))
  {
    var r := Step(s, e);
    assert Inv(r.cmd);
    assert r.mounted ==> (r.conn.stored <==> r.conn.socket == Open || r.conn.socket == Closing);
    assert r.mounted <==> r.conn.closeCalls == 0;
    assert r.conn.closeCalls <= 1;
    assert Synced(r);
    assert !r.mounted ==> r.conn.socket == Closing || r.conn.socket == Closed;
    if r.sent != s.sent {
      Wire.DecodeEncode(r.cmd);
      assert WellFormedMessage(r.sent[|s.sent|]);
      forall k | 0 <= k < |r.sent| ensures WellFormedMessage(r.sent[k]) {
        if k < |s.sent| { assert r.sent[k] == s.sent[k]; }
      }
    }
  }

  lemma {:induction false} RunInv(s: Session, es: seq<Event>)
    requires SessionInv(s) && AllAdmissibleEvents(es)
    ensures SessionInv(Run(s, es))
    decreases |es|
  {
    if |es| > 0 {
      StepInv(s, es[0]);
      assert AllAdmissibleEvents(es[1..]) by {
        forall k | 0 <= k < |es[1..]| ensures AdmissibleEvent(es[1..][k]) {
          assert es[1..][k] == es[k + 1];
        }
      }
      RunInv(Step(s, es[0]), es[1..]);
    }
  }

  /** What holds after any sequence of UI and socket events from mount:
      battery stays 85, speed stays within the slider's bounds, a mounted
      component stores a handle exactly while its socket is open or closing
      (so the `readyState` test of the send is not redundant), the socket
      is closed at most once and only by unmounting, after which it is
      closing or closed, whenever the socket can send the last message sent
      is the current snapshot, and every message sent is the encoding of a
      snapshot that satisfies the same bounds. */
  lemma Reachable(es: seq<Event>)
    requires AllAdmissibleEvents(es)
    ensures var r := Run(Start, es);
      && r.cmd.battery == InitialBattery
      && MinSpeed <= r.cmd.speed <= MaxSpeed
      && (r.mounted ==> (r.conn.stored <==> r.conn.socket == Open || r.conn.socket == Closing))
      && r.conn.closeCalls == (if r.mounted then 0 else 1)
      && (!r.mounted ==> r.conn.socket == Closing || r.conn.socket == Closed)
      && Synced(r)
      && forall k :: 0 <= k < |r.sent| ==> WellFormedMessage(r.sent[k])
  {
    StartInv();
    RunInv(Start, es);
  }

  // ---------------------------------------------------------------------
  // Per-event properties

  /** Stop writes Neutral and 0 together and leaves the other fields; the
      two writes form one snapshot, so at most one message results, and it
      carries both. */
  lemma StopSendsAtMostOnce(s: Session)
    requires s.mounted
    ensures var r := Step(s, Ui(PressStop));
      && r.cmd.direction == Neutral && r.cmd.speed == 0
      && r.cmd.headlightsOn == s.cmd.headlightsOn && r.cmd.hornOn == s.cmd.hornOn
      && r.cmd.battery == s.cmd.battery
      && |r.sent| <= |s.sent| + 1
      && (|r.sent| == |s.sent| + 1 ==> Wire.Decode(r.sent[|s.sent|]) == Some(r.cmd))
  {
    var r := Step(s, Ui(PressStop));
    if |r.sent| == |s.sent| + 1 {
      Wire.DecodeEncode(r.cmd);
    }
  }

  /** A direction press writes only the direction; in particular the speed
      is kept. It sends when the direction actually changed and the socket
      is open. */
  lemma PressKeepsSpeed(s: Session, d: Direction)
    requires s.mounted && d != Neutral
    ensures var r := Step(s, Ui(PressDirection(d)));
      && r.cmd == s.cmd.(direction := d)
      && r.conn == s.conn
      && (r.sent != s.sent <==> s.cmd.direction != d && CanSend(s.conn))
  {
  }

  /** Releasing a direction button changes nothing and so sends nothing. */
  lemma ReleaseIsSilent(s: Session)
    ensures Step(s, Ui(ReleaseDirection)) == s
  {
  }

  /** A socket error only logs: the whole session is unchanged. */
  lemma ErrorIsSilent(s: Session)
    ensures Step(s, SocketError) == s
  {
  }

  /** A horn click on a mounted component flips the horn and always changes
      a dependency, so its snapshot goes through the guarded send. */
  lemma HornClick(s: Session)
    requires s.mounted
    ensures Step(s, Ui(ClickHorn))
            == s.(cmd := ToggleHorn(s.cmd), sent := Send(s.conn, Wire.Encode(ToggleHorn(s.cmd)), s.sent))
  {
    var t := Handle(s, Ui(ClickHorn));
    assert t == s.(cmd := ToggleHorn(s.cmd));
    assert DepsChanged(s, t);
  }

  /** Clicking a toggle while mounted always changes a dependency, so it sends
      exactly one message when the socket can send; two clicks restore the
      command state. */
  lemma ToggleTwice(s: Session)
    requires s.mounted
    ensures var r1 := Step(s, Ui(ClickHorn));
      var r2 := Step(r1, Ui(ClickHorn));
      && r2.cmd == s.cmd && r2.conn == s.conn
      && (CanSend(s.conn) ==> r2.sent == s.sent + [Wire.Encode(r1.cmd), Wire.Encode(s.cmd)])
      && (!CanSend(s.conn) ==> r2.sent == s.sent)
  {
    HornClick(s);
    var r1 := Step(s, Ui(ClickHorn));
    HornClick(r1);
    ToggleTwiceRestores(s.cmd);
  }

  /** When the socket opens on a mounted component, storing the handle
      changes the `webSocket` dependency, so the current snapshot is sent at
      once. */
  lemma OpenSendsSnapshot(s: Session)
    requires SessionInv(s) && s.mounted && s.conn.socket == Connecting
    ensures var r := Step(s, SocketOpen);
      r.cmd == s.cmd && CanSend(r.conn) && r.sent == s.sent + [Wire.Encode(s.cmd)]
  {
  }

  /** Closing clears the handle; nothing is sent, and nothing can be sent
      afterwards. */
  lemma CloseClearsHandle(s: Session)
    requires s.mounted && CloseFires(s.conn)
    ensures var r := Step(s, SocketClose);
      !r.conn.stored && r.conn.socket == Closed && r.sent == s.sent
  {
  }

  /** Once the device has started the closing handshake, the handle is still
      stored but the socket is not OPEN, so no event sends anything until
      `close` clears the handle. */
  lemma NothingSentWhileClosing(s: Session, e: Event)
    requires AdmissibleEvent(e) && s.conn.socket == Closing
    ensures Step(s, e).sent == s.sent
  {
  }

  /** A press between the start of the closing handshake and the `close`
      event changes the direction, but the send guard drops its snapshot. */
  lemma {:induction false} PressWhileClosingIsDropped(s: Session, d: Direction)
    requires s.mounted && CanSend(s.conn)
    requires d != Neutral && s.cmd.direction != d
    ensures var r1 := Step(s, SocketClosing);
      var r2 := Step(r1, Ui(PressDirection(d)));
      && r1.conn.stored && r1.conn.socket == Closing
      && r2.cmd == s.cmd.(direction := d)
      && r2.sent == s.sent
  {
    var r1 := Step(s, SocketClosing);
    assert r1.conn == OnClosing(s.conn) && r1.cmd == s.cmd && r1.sent == s.sent;
    NothingSentWhileClosing(r1, Ui(PressDirection(d)));
  }

  /** Unmounting closes the socket that was created (it is closing or
      closed afterwards), calls `close` once, and sends nothing; a second
      unmount does nothing. */
  lemma UnmountClosesOnce(s: Session)
    requires s.mounted
    ensures var r := Step(s, Unmount);
      && !r.mounted
      && (r.conn.socket == Closing || r.conn.socket == Closed)
      && r.conn.closeCalls == s.conn.closeCalls + 1
      && r.sent == s.sent
      && Step(r, Unmount) == r
  {
  }

  /** Without a stored open socket, no event sends anything and nothing
      fails: the snapshot is dropped. */
  lemma NoSendWhileNotOpen(s: Session, e: Event)
    requires AdmissibleEvent(e) && !CanSend(Handle(s, e).conn)
    ensures Step(s, e).sent == s.sent
  {
  }

  /** After unmount, no sequence of events sends anything. */
  lemma {:induction false} SilentAfterUnmount(s: Session, es: seq<Event>)
    requires SessionInv(s) && !s.mounted && AllAdmissibleEvents(es)
    ensures Run(s, es).sent == s.sent
    decreases |es|
  {
    if |es| > 0 {
      var r := Step(s, es[0]);
      assert r.sent == s.sent;
      StepInv(s, es[0]);
      assert AllAdmissibleEvents(es[1..]) by {
        forall k | 0 <= k < |es[1..]| ensures AdmissibleEvent(es[1..][k]) {
          assert es[1..][k] == es[k + 1];
        }
      }
      SilentAfterUnmount(r, es[1..]);
    }
  }

  lemma RunTwo(s: Session, es: seq<Event>)
    requires |es| == 2 && AllAdmissibleEvents(es)
    ensures Run(s, es) == Step(Step(s, es[0]), es[1])
  {
    var s1 := Step(s, es[0]);
    assert Run(s, es) == Run(s1, es[1..]);
    assert es[1..][1..] == [];
    assert Run(s1, es[1..]) == Run(Step(s1, es[1]), []);
  }

  /** The two steps of the example below, one after the other. */
  lemma {:induction false} ForwardThenHornSteps(s: Session)
    requires s.mounted && CanSend(s.conn) && s.cmd.direction != Forward
    ensures var c1 := s.cmd.(direction := Forward);
      var r1 := Step(s, Ui(PressDirection(Forward)));
      && r1 == s.(cmd := c1, sent := s.sent + [Wire.Encode(c1)])
      && Step(r1, Ui(ClickHorn)).sent
         == r1.sent + [Wire.Encode(c1.(hornOn := !s.cmd.hornOn))]
  {
    var c1 := s.cmd.(direction := Forward);
    var r1 := Step(s, Ui(PressDirection(Forward)));
    PressKeepsSpeed(s, Forward);
    HornClick(r1);
    assert ToggleHorn(c1) == c1.(hornOn := !s.cmd.hornOn);
  }

  /** A two-event example, for any starting state: with the socket open,
      pressing Forward (from another direction) and then clicking the horn
      sends two messages, each the full snapshot after its change. From
      `{Neutral, 50, false, false, 85}` these are the encodings of
      `{Forward, 50, false, false, 85}` and `{Forward, 50, false, true, 85}`,
      whose text `Wire.MessageText` spells out. */
  lemma ForwardThenHorn(s: Session)
    requires s.mounted && CanSend(s.conn) && s.cmd.direction != Forward
    ensures Run(s, [Ui(PressDirection(Forward)), Ui(ClickHorn)]).sent
            == s.sent + [Wire.Encode(s.cmd.(direction := Forward)),
                         Wire.Encode(s.cmd.(direction := Forward, hornOn := !s.cmd.hornOn))]
  {
    var es := [Ui(PressDirection(Forward)), Ui(ClickHorn)];
    RunTwo(s, es);
    ForwardThenHornSteps(s);
  }
}
