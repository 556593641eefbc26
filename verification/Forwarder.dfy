// The crash-safe event forwarder: three durable files, a log that another process
// appends to, and a crash possible after every durable write and every post.
module Forwarder {
  import opened Wrappers

  type Byte = b: int | 0 <= b < 256

  const NEWLINE: Byte := 10

  // ---- lines of the log ----------------------------------------------------------

  predicate Terminated(log: seq<Byte>) {
    log == [] || log[|log| - 1] == NEWLINE
  }

  /** `c` is where a line may start. */
  predicate Boundary(log: seq<Byte>, c: nat) {
    c <= |log| && (c == 0 || log[c - 1] == NEWLINE)
  }

  // Where `readline` stops when it starts at `c`.
  function LineEnd(log: seq<Byte>, c: nat): (e: nat)
    requires c < |log|
    ensures c < e <= |log|
    ensures e == |log| || log[e - 1] == NEWLINE
    ensures forall k :: c <= k < e - 1 ==> log[k] != NEWLINE
    decreases |log| - c
  {
    if log[c] == NEWLINE || c + 1 == |log| then c + 1 else LineEnd(log, c + 1)
  }

  // Where the line that ends at `e` starts.
  function LineStart(log: seq<Byte>, e: nat): (c: nat)
    requires 0 < e <= |log|
    ensures c < e && Boundary(log, c)
    ensures forall k :: c <= k < e - 1 ==> log[k] != NEWLINE
  {
    if e == 1 || log[e - 2] == NEWLINE then e - 1 else LineStart(log, e - 1)
  }

  predicate EndsLine(log: seq<Byte>, e: nat) {
    0 < e <= |log| && log[e - 1] == NEWLINE
  }

  function LineAt(log: seq<Byte>, e: nat): seq<Byte>
    requires 0 < e <= |log|
  {
    log[LineStart(log, e)..e]
  }

  /** A line read from a boundary of a terminated log ends at a boundary and starts there. */
  lemma NextLine(log: seq<Byte>, c: nat)
    requires Terminated(log) && Boundary(log, c) && c < |log|
    ensures var e := LineEnd(log, c);
            && EndsLine(log, e) && LineStart(log, e) == c && LineAt(log, e) == log[c..e]
            && forall x: nat :: c < x < e ==> !EndsLine(log, x)
  {
    var e := LineEnd(log, c);
    var s := LineStart(log, e);
    assert c > 0 ==> log[c - 1] == NEWLINE;
    assert s > 0 ==> log[s - 1] == NEWLINE;
  }

  lemma LineStartAppend(log: seq<Byte>, more: seq<Byte>, e: nat)
    requires 0 < e <= |log|
    ensures LineStart(log + more, e) == LineStart(log, e)
    ensures LineAt(log + more, e) == LineAt(log, e)
  {
    var s, t := LineStart(log, e), LineStart(log + more, e);
    assert t > 0 ==> log[t - 1] == (log + more)[t - 1] == NEWLINE;
    assert s > 0 ==> log[s - 1] == NEWLINE;
  }

  // ---- durable state ---------------------------------------------------------------

  // `payload` is the log line the event was read from.
  datatype Envelope = Envelope(sequence: nat, nonce: string, payload: seq<Byte>)

  // `line` is the offset at which the envelope's line ends.
  datatype PendingFile = PendingFile(line: nat, envelope: Envelope)

  datatype Post = Post(line: nat, envelope: Envelope, accepted: bool)

  // `wire` is everything the controllers were ever sent, in order.
  datatype Disk = Disk(log: seq<Byte>, cursor: nat, pending: Option<PendingFile>, sequence: nat, wire: seq<Post>)

  datatype Phase =
    | Idle
    | Posting(accepted: bool)     // the pending envelope goes to one controller after another
    | Delivered                   // some controller accepted it
    | Advanced                    // the cursor file is past its line
    | Scanning                    // no pending envelope, about to read a line
    | Numbered                    // a fresh sequence is durable, nothing else yet

  datatype State = State(disk: Disk, phase: Phase)

  datatype Event =
    | Start
    | PostOne(accepted: bool)
    | EndDelivery
    | SaveCursor
    | ClearPending
    | ReadLine
    | SavePending(nonce: string)
    | Crash
    | Append(lines: seq<Byte>)

  function Step(s: State, e: Event, valid: seq<Byte> -> bool): State {
    var d := s.disk;
    match e
    case Start =>
      if s.phase != Idle then s else s.(phase := if d.pending.Some? then Posting(false) else Scanning)
    case PostOne(accepted) =>
      if !s.phase.Posting? || d.pending.None? then s
      else
        var p := d.pending.value;
        State(d.(wire := d.wire + [Post(p.line, p.envelope, accepted)]), Posting(s.phase.accepted || accepted))
    case EndDelivery =>
      if !s.phase.Posting? then s else s.(phase := if s.phase.accepted then Delivered else Idle)
    case SaveCursor =>
      if s.phase != Delivered || d.pending.None? then s
      else State(if d.pending.value.line > d.cursor then d.(cursor := d.pending.value.line) else d, Advanced)
    case ClearPending =>
      if s.phase != Advanced then s else State(d.(pending := None), Scanning)
    case ReadLine =>
      if s.phase != Scanning then s
      else if d.cursor >= |d.log| || !valid(d.log[d.cursor..LineEnd(d.log, d.cursor)]) then s.(phase := Idle)
      else State(d.(sequence := d.sequence + 1), Numbered)
    case SavePending(nonce) =>
      if s.phase != Numbered || d.cursor >= |d.log| then s
      else
        var line := LineEnd(d.log, d.cursor);
        State(d.(pending := Some(PendingFile(line, Envelope(d.sequence, nonce, d.log[d.cursor..line])))), Posting(false))
    case Crash => s.(phase := Idle)
    case Append(lines) => if Terminated(lines) then s.(disk := d.(log := d.log + lines)) else s
  }

  function Run(s: State, events: seq<Event>, valid: seq<Byte> -> bool): State
    decreases |events|
  {
    if events == [] then s else Run(Step(s, events[0], valid), events[1..], valid)
  }

  // ---- the safety property --------------------------------------------------------------

  /** Lines are posted in log order; one line, one envelope; sequences strictly increase. */
  ghost predicate PostsInOrder(wire: seq<Post>) {
    forall i, j {:trigger Follows(wire[i], wire[j])} :: 0 <= i < j < |wire| ==> Follows(wire[i], wire[j])
  }

  predicate Follows(q: Post, r: Post) {
    && q.line <= r.line
    && (q.line == r.line ==> q.envelope == r.envelope)
    && (q.line < r.line ==> q.envelope.sequence < r.envelope.sequence)
  }

  predicate Genuine(log: seq<Byte>, line: nat, e: Envelope) {
    EndsLine(log, line) && e.payload == LineAt(log, line)
  }

  predicate AcceptedAt(wire: seq<Post>, line: nat) {
    exists i :: 0 <= i < |wire| && wire[i].line == line && wire[i].accepted
  }

  /** The cursor has passed no line that no controller accepted. */
  ghost predicate PassedAccepted(log: seq<Byte>, cursor: nat, wire: seq<Post>) {
    forall e: nat :: EndsLine(log, e) && e <= cursor ==> AcceptedAt(wire, e)
  }

  /** The pending envelope belongs to the line that starts or ends at the cursor, every
      post of that line carried it, and every earlier line had a smaller sequence. */
  ghost predicate PendingOk(d: Disk) {
    d.pending.Some? ==>
      var p := d.pending.value;
      && Genuine(d.log, p.line, p.envelope)
      && (p.line == d.cursor || LineStart(d.log, p.line) == d.cursor)
      && p.envelope.sequence <= d.sequence
      && forall q :: q in d.wire ==>
           && q.line <= p.line
           && (q.line == p.line ==> q.envelope == p.envelope)
           && (q.line < p.line ==> q.envelope.sequence < p.envelope.sequence)
  }

  ghost predicate DiskSafe(d: Disk) {
    && Terminated(d.log)
    && Boundary(d.log, d.cursor)
    && PostsInOrder(d.wire)
    && (forall q :: q in d.wire ==> Genuine(d.log, q.line, q.envelope) && q.envelope.sequence <= d.sequence)
    && (d.pending.None? ==> forall q :: q in d.wire ==> q.line <= d.cursor)
    && PendingOk(d)
    && PassedAccepted(d.log, d.cursor, d.wire)
  }

  ghost predicate Safe(s: State) {
    var d := s.disk;
    && DiskSafe(d)
    && match s.phase
       case Idle => true
       case Posting(accepted) => d.pending.Some? && (accepted ==> AcceptedAt(d.wire, d.pending.value.line))
       case Delivered => d.pending.Some? && AcceptedAt(d.wire, d.pending.value.line)
       case Advanced => d.pending.Some? && d.pending.value.line == d.cursor
       case Scanning => d.pending.None?
       case Numbered =>
         && d.pending.None? && d.cursor < |d.log|
         && forall q :: q in d.wire ==> q.envelope.sequence < d.sequence
  }

  lemma AppendSafe(s: State, lines: seq<Byte>)
    requires Safe(s) && Terminated(lines)
    ensures Safe(s.(disk := s.disk.(log := s.disk.log + lines)))
  {
    var d := s.disk;
    var log := d.log + lines;
    forall q | q in d.wire ensures Genuine(log, q.line, q.envelope) {
      LineStartAppend(d.log, lines, q.line);
    }
    if d.pending.Some? {
      LineStartAppend(d.log, lines, d.pending.value.line);
    }
    forall e: nat | EndsLine(log, e) && e <= d.cursor ensures AcceptedAt(d.wire, e) {
      assert EndsLine(d.log, e);
    }
  }

  lemma PostSafe(s: State, accepted: bool)
    requires Safe(s) && s.phase.Posting?
    ensures var p := s.disk.pending.value;
            Safe(State(s.disk.(wire := s.disk.wire + [Post(p.line, p.envelope, accepted)]),
                       Posting(s.phase.accepted || accepted)))
  {
    var d := s.disk;
    var p := d.pending.value;
    var wire := d.wire + [Post(p.line, p.envelope, accepted)];
    forall line | AcceptedAt(d.wire, line) ensures AcceptedAt(wire, line) {
      var i :| 0 <= i < |d.wire| && d.wire[i].line == line && d.wire[i].accepted;
      assert wire[i] == d.wire[i];
    }
    forall i, j | 0 <= i < j < |wire| ensures Follows(wire[i], wire[j]) {
      assert wire[i] in d.wire;
      assert j < |d.wire| ==> Follows(d.wire[i], d.wire[j]);
    }
    assert accepted ==> wire[|d.wire|].line == p.line && wire[|d.wire|].accepted;
  }

  lemma SaveCursorSafe(s: State)
    requires Safe(s) && s.phase == Delivered
    ensures Safe(Step(s, SaveCursor, _ => false))
  {
    var d := s.disk;
    var p := d.pending.value;
    if p.line > d.cursor {
      forall e: nat | EndsLine(d.log, e) && e <= p.line ensures AcceptedAt(d.wire, e) {
        assert d.log[e - 1] == NEWLINE;
      }
    }
  }

  lemma SavePendingSafe(s: State, nonce: string)
    requires Safe(s) && s.phase == Numbered
    ensures Safe(Step(s, SavePending(nonce), _ => false))
  {
    NextLine(s.disk.log, s.disk.cursor);
  }

  lemma StepSafe(s: State, e: Event, valid: seq<Byte> -> bool)
    requires Safe(s)
    ensures Safe(Step(s, e, valid))
  {
    match e {
      case Append(lines) => if Terminated(lines) { AppendSafe(s, lines); }
      case PostOne(accepted) => if s.phase.Posting? { PostSafe(s, accepted); }
      case SaveCursor => if s.phase == Delivered { SaveCursorSafe(s); }
      case SavePending(nonce) => if s.phase == Numbered { SavePendingSafe(s, nonce); }
      case _ =>
    }
  }

  /** Safety over every run: every interleaving of passes, crashes and appended lines. */
  lemma {:induction false} RunSafe(s: State, events: seq<Event>, valid: seq<Byte> -> bool)
    requires Safe(s)
    ensures Safe(Run(s, events, valid))
    decreases |events|
  {
    if events != [] {
      StepSafe(s, events[0], valid);
      RunSafe(Step(s, events[0], valid), events[1..], valid);
    }
  }

  function Installed(log: seq<Byte>): State {
    State(Disk(log, 0, None, 0, []), Idle)
  }

  /** From installation on: one envelope per line, lines in order under increasing
      sequences, and an accepted post for every line behind the cursor. */
  lemma CrashSafety(log: seq<Byte>, events: seq<Event>, valid: seq<Byte> -> bool)
    requires Terminated(log)
    ensures var d := Run(Installed(log), events, valid).disk;
            PostsInOrder(d.wire) && PassedAccepted(d.log, d.cursor, d.wire) && PendingOk(d)
  {
    assert Safe(Installed(log));
    RunSafe(Installed(log), events, valid);
  }

  // The terminated lines that were appended, in order.
  function Appended(events: seq<Event>): seq<Byte> {
    if events == [] then []
    else (if events[0].Append? && Terminated(events[0].lines) then events[0].lines else []) + Appended(events[1..])
  }

  /** The forwarder never writes the log: it holds what was there and what was appended. */
  lemma {:induction false} LogIsAppended(s: State, events: seq<Event>, valid: seq<Byte> -> bool)
    ensures Run(s, events, valid).disk.log == s.disk.log + Appended(events)
    decreases |events|
  {
    if events != [] {
      LogIsAppended(Step(s, events[0], valid), events[1..], valid);
    }
  }

  lemma {:induction false} RunConcat(s: State, xs: seq<Event>, ys: seq<Event>, valid: seq<Byte> -> bool)
    ensures Run(s, xs + ys, valid) == Run(Run(s, xs, valid), ys, valid)
    decreases |xs|
  {
    if xs == [] {
      assert xs + ys == ys;
    } else {
      assert (xs + ys)[1..] == xs[1..] + ys;
      RunConcat(Step(s, xs[0], valid), xs[1..], ys, valid);
    }
  }

  /** Some run of the steps above leads from `s` to `t`. */
  ghost predicate Reaches(s: State, t: State, valid: seq<Byte> -> bool) {
    exists events :: Run(s, events, valid) == t
  }

  lemma ReachesSelf(s: State, valid: seq<Byte> -> bool)
    ensures Reaches(s, s, valid)
  {
    assert Run(s, [], valid) == s;
  }

  lemma ReachesStep(s: State, t: State, e: Event, valid: seq<Byte> -> bool)
    requires Reaches(s, t, valid)
    ensures Reaches(s, Step(t, e, valid), valid)
  {
    var events :| Run(s, events, valid) == t;
    RunConcat(s, events, [e], valid);
    assert Run(s, events + [e], valid) == Step(t, e, valid);
  }

  // ---- the forwarder ------------------------------------------------------------------------

  datatype ForwardResult = ForwardResult(forwarded: nat, failed: nat, cursor: nat, pending: bool)

  // Lines that end at or before offset `c`.
  function LinesUpTo(log: seq<Byte>, c: nat): nat
    requires c <= |log|
  {
    if c == 0 then 0 else LinesUpTo(log, c - 1) + (if log[c - 1] == NEWLINE then 1 else 0)
  }

  function Rejected(posts: seq<Post>): nat {
    if posts == [] then 0
    else Rejected(posts[..|posts| - 1]) + (if posts[|posts| - 1].accepted then 0 else 1)
  }

  lemma RejectedOne(wire: seq<Post>, q: Post)
    ensures Rejected(wire + [q]) == Rejected(wire) + (if q.accepted then 0 else 1)
  {
    assert (wire + [q])[..|wire|] == wire;
  }

  lemma OneLine(log: seq<Byte>, c: nat)
    requires Terminated(log) && Boundary(log, c) && c < |log|
    ensures LinesUpTo(log, LineEnd(log, c)) == LinesUpTo(log, c) + 1
  {
    var e := LineEnd(log, c);
    var i := e - 1;
    while c < i
      invariant c <= i < e
      invariant LinesUpTo(log, e) == LinesUpTo(log, i) + 1
    {
      i := i - 1;
    }
  }

  lemma StopPosting(from: State, d: Disk, accepted: bool, e: Event, valid: seq<Byte> -> bool)
    requires Safe(State(d, Posting(accepted))) && Reaches(from, State(d, Posting(accepted)), valid)
    requires e == Event.Crash || (e == EndDelivery && !accepted)
    ensures Safe(State(d, Idle)) && Reaches(from, State(d, Idle), valid)
  {
    ReachesStep(from, State(d, Posting(accepted)), e, valid);
  }

  lemma StopScanning(from: State, d: Disk, valid: seq<Byte> -> bool)
    requires Safe(State(d, Scanning)) && Reaches(from, State(d, Scanning), valid)
    requires d.cursor >= |d.log| || !valid(d.log[d.cursor..LineEnd(d.log, d.cursor)])
    ensures Safe(State(d, Idle)) && Reaches(from, State(d, Idle), valid)
  {
    ReachesStep(from, State(d, Scanning), ReadLine, valid);
  }

  /** The pending line ahead of the cursor is the next line. */
  lemma PendingIsNext(log: seq<Byte>, c: nat, e: nat)
    requires Terminated(log) && Boundary(log, c) && EndsLine(log, e) && LineStart(log, e) == c
    ensures c < |log| && LineEnd(log, c) == e
  {
    var f := LineEnd(log, c);
    assert log[f - 1] == NEWLINE && log[e - 1] == NEWLINE;
  }

  /** Every post between two moments is recorded as its controller answered it, and the
      cursor moved only if one of them was accepted. */
  ghost predicate Truthful(d: Disk, u: Disk, answers: nat -> bool) {
    && d.wire <= u.wire && d.cursor <= u.cursor
    && (forall i :: |d.wire| <= i < |u.wire| ==> (u.wire[i].accepted <==> answers(i)))
    && (Accepting(d.wire, u.wire) || u.cursor == d.cursor)
  }

  ghost predicate Accepting(sent: seq<Post>, wire: seq<Post>) {
    exists i :: |sent| <= i < |wire| && wire[i].accepted
  }

  lemma TruthfulThen(d: Disk, u: Disk, v: Disk, answers: nat -> bool)
    requires Truthful(d, u, answers) && Truthful(u, v, answers)
    ensures Truthful(d, v, answers)
  {
    if i :| |d.wire| <= i < |u.wire| && u.wire[i].accepted {
      assert v.wire[i] == u.wire[i];
    }
  }

  lemma RefusedStays(d: Disk, u: Disk, answers: nat -> bool)
    requires Truthful(d, u, answers) && forall i :: !answers(i)
    ensures u.cursor == d.cursor
  {
  }

  /** One round of posts so far: recorded as answered, with the refused ones counted. */
  ghost predicate Round(sent: seq<Post>, wire: seq<Post>, answers: nat -> bool, accepted: bool, failures: nat) {
    && sent <= wire
    && (forall i :: |sent| <= i < |wire| ==> (wire[i].accepted <==> answers(i)))
    && (accepted <==> Accepting(sent, wire))
    && failures == Rejected(wire) - Rejected(sent) <= |wire| - |sent|
    && (accepted <==> failures < |wire| - |sent|)
  }

  lemma RoundOne(sent: seq<Post>, wire: seq<Post>, answers: nat -> bool, accepted: bool, failures: nat, q: Post)
    requires Round(sent, wire, answers, accepted, failures) && q.accepted == answers(|wire|)
    ensures Round(sent, wire + [q], answers, accepted || q.accepted, failures + if q.accepted then 0 else 1)
  {
    RejectedOne(wire, q);
    assert (wire + [q])[|wire|] == q;
    if i :| |sent| <= i < |wire| && wire[i].accepted {
      assert (wire + [q])[i] == wire[i];
    }
  }

  lemma RoundTruthful(d: Disk, u: Disk, answers: nat -> bool, accepted: bool, failures: nat)
    requires Round(d.wire, u.wire, answers, accepted, failures)
    ensures u.cursor == d.cursor ==> Truthful(d, u, answers)
    ensures accepted && d.cursor <= u.cursor ==> Truthful(d, u, answers)
    ensures !accepted ==> var sent := |u.wire| - |d.wire|;
                          Rejected(u.wire) == Rejected(u.wire[..|u.wire| - sent]) + sent
  {
    assert u.wire[..|d.wire|] == d.wire;
  }

  class EventForwarder {
    const valid: seq<Byte> -> bool       // whether a line parses as an event
    const controllers: nat
    var log: seq<Byte>
    var cursorFile: nat
    var pendingFile: Option<PendingFile>
    var sequenceFile: nat
    var wire: seq<Post>
    var power: nat                       // durable writes and posts left before the next crash

    function Files(): Disk
      reads this
    {
      Disk(log, cursorFile, pendingFile, sequenceFile, wire)
    }

    ghost predicate Valid()
      reads this
    {
      Safe(State(Files(), Idle))
    }

    /** The files are safe in `phase`, and a run led there from `from`. */
    ghost predicate At(from: State, phase: Phase)
      reads this
    {
      Safe(State(Files(), phase)) && Reaches(from, State(Files(), phase), valid)
    }

    constructor (valid: seq<Byte> -> bool, controllers: nat, log: seq<Byte>, power: nat)
      requires Terminated(log) && 0 < controllers
      ensures Valid() && State(Files(), Idle) == Installed(log)
      ensures this.valid == valid && this.controllers == controllers && this.power == power
    {
      this.valid, this.controllers, this.log, this.power := valid, controllers, log, power;
      cursorFile, pendingFile, sequenceFile, wire := 0, None, 0, [];
    }

    // One effect: false when the machine stops instead.
    method Spend() returns (alive: bool)
      modifies this`power
      ensures alive <==> 0 < old(power)
      ensures power == if alive then old(power) - 1 else 0
    {
      alive := 0 < power;
      if alive {
        power := power - 1;
      }
    }

    // One post; false when the machine stopped instead.
    method Send(answer: bool, ghost accepted: bool, ghost from: State) returns (alive: bool)
      requires pendingFile.Some? && At(from, Posting(accepted))
      modifies this`wire, this`power
      ensures alive ==> && wire == old(wire) + [Post(pendingFile.value.line, pendingFile.value.envelope, answer)]
                        && At(from, Posting(accepted || answer))
      ensures !alive ==> wire == old(wire) && power == 0
    {
      alive := Spend();
      if alive {
        PostSafe(State(Files(), Posting(accepted)), answer);
        ReachesStep(from, State(Files(), Posting(accepted)), PostOne(answer), valid);
        wire := wire + [Post(pendingFile.value.line, pendingFile.value.envelope, answer)];
      }
    }

    /** Sends the pending envelope to every controller in turn, until the machine stops. */
    method Deliver(answers: nat -> bool, ghost from: State) returns (accepted: bool, failures: nat, alive: bool)
      requires pendingFile.Some? && At(from, Posting(false))
      modifies this`wire, this`power
      ensures At(from, Posting(accepted))
      ensures Round(old(wire), wire, answers, accepted, failures)
      ensures if alive then |wire| == |old(wire)| + controllers else power == 0
    {
      accepted, failures, alive := false, 0, true;
      var sent := 0;
      while sent < controllers
        invariant sent <= controllers && |wire| == |old(wire)| + sent
        invariant At(from, Posting(accepted))
        invariant Round(old(wire), wire, answers, accepted, failures)
      {
        var answer := answers(|wire|);
        RoundOne(old(wire), wire, answers, accepted, failures,
                 Post(pendingFile.value.line, pendingFile.value.envelope, answer));
        alive := Send(answer, accepted, from);
        if !alive {
          return;
        }
        accepted := accepted || answer;
        failures := failures + if answer then 0 else 1;
        sent := sent + 1;
      }
    }

    /** After an accepted delivery: moves the cursor past the line, then drops the pending file. */
    method Settle(ghost from: State) returns (alive: bool)
      requires At(from, Posting(true))
      modifies this`cursorFile, this`pendingFile, this`power
      ensures alive ==> && At(from, Scanning)
                        && cursorFile == old(pendingFile).value.line && pendingFile == None
      ensures old(cursorFile) <= cursorFile && (pendingFile.Some? ==> pendingFile == old(pendingFile))
      ensures !alive ==> At(from, Idle) && power == 0
    {
      ReachesStep(from, State(Files(), Posting(true)), EndDelivery, valid);
      ReachesStep(from, State(Files(), Delivered), Event.Crash, valid);
      SaveCursorSafe(State(Files(), Delivered));
      if pendingFile.value.line > cursorFile {
        alive := Spend();
        if !alive {
          return;
        }
        ReachesStep(from, State(Files(), Delivered), SaveCursor, valid);
        cursorFile := pendingFile.value.line;
      } else {
        ReachesStep(from, State(Files(), Delivered), SaveCursor, valid);
      }
      ReachesStep(from, State(Files(), Advanced), Event.Crash, valid);
      alive := Spend();
      if alive {
        ReachesStep(from, State(Files(), Advanced), ClearPending, valid);
        pendingFile := None;
      }
    }

    /** Signs the next line under a fresh sequence and makes the envelope durable. */
    method Enqueue(nonce: string, ghost from: State) returns (alive: bool)
      requires At(from, Scanning)
      requires cursorFile < |log| && valid(log[cursorFile..LineEnd(log, cursorFile)])
      modifies this`sequenceFile, this`pendingFile, this`power
      ensures alive ==> && At(from, Posting(false))
                        && pendingFile.value.line == LineEnd(log, cursorFile)
      ensures !alive ==> At(from, Idle) && pendingFile == old(pendingFile) && power == 0
    {
      ReachesStep(from, State(Files(), Scanning), Event.Crash, valid);
      alive := Spend();
      if !alive {
        return;
      }
      ReachesStep(from, State(Files(), Scanning), ReadLine, valid);
      StepSafe(State(Files(), Scanning), ReadLine, valid);
      sequenceFile := sequenceFile + 1;
      ReachesStep(from, State(Files(), Numbered), Event.Crash, valid);
      alive := Spend();
      if !alive {
        return;
      }
      ReachesStep(from, State(Files(), Numbered), SavePending(nonce), valid);
      SavePendingSafe(State(Files(), Numbered), nonce);
      var line := LineEnd(log, cursorFile);
      pendingFile := Some(PendingFile(line, Envelope(sequenceFile, nonce, log[cursorFile..line])));
    }

    /** Delivers the pending envelope and settles it if some controller accepts. */
    method DeliverPending(answers: nat -> bool, ghost from: State)
      returns (accepted: bool, failures: nat, alive: bool)
      requires pendingFile.Some? && At(from, Posting(false))
      modifies this`wire, this`power, this`cursorFile, this`pendingFile
      ensures Truthful(old(Files()), Files(), answers) && failures == Rejected(wire) - Rejected(old(wire))
      ensures !alive ==> power == 0
      ensures old(cursorFile) <= cursorFile && (pendingFile.Some? ==> pendingFile == old(pendingFile))
      ensures !alive || !accepted ==> At(from, Idle)
      ensures alive && !accepted ==> && pendingFile == old(pendingFile) && cursorFile == old(cursorFile)
                                     && LastRoundRefused()
      ensures alive && accepted ==> && At(from, Scanning)
                                    && cursorFile == old(pendingFile).value.line && pendingFile == None
    {
      accepted, failures, alive := Deliver(answers, from);
      RoundTruthful(old(Files()), Files(), answers, accepted, failures);
      if alive && accepted {
        alive := Settle(from);
      } else {
        StopPosting(from, Files(), accepted, if alive then EndDelivery else Event.Crash, valid);
      }
    }

    /** Forwards the next line. */
    method ForwardLine(answers: nat -> bool, nonce: string, ghost from: State)
      returns (accepted: bool, failures: nat, alive: bool)
      requires At(from, Scanning)
      requires cursorFile < |log| && valid(log[cursorFile..LineEnd(log, cursorFile)])
      modifies this`wire, this`power, this`cursorFile, this`pendingFile, this`sequenceFile
      ensures Truthful(old(Files()), Files(), answers) && (!alive ==> power == 0)
      ensures pendingFile.Some? ==> old(cursorFile) < pendingFile.value.line
      ensures !alive || !accepted ==> At(from, Idle)
      ensures alive ==> failures == Rejected(wire) - Rejected(old(wire))
      ensures alive && !accepted ==> && pendingFile.Some? && cursorFile == old(cursorFile)
                                     && LastRoundRefused()
      ensures alive && accepted ==> && At(from, Scanning)
                                    && cursorFile == LineEnd(log, old(cursorFile)) && pendingFile == None
    {
      alive := Enqueue(nonce, from);
      if alive {
        accepted, failures, alive := DeliverPending(answers, from);
      } else {
        accepted, failures := false, 0;
      }
    }

    /** What a finished pass reports: where it stands, how many posts were refused since
        `sent`, and the lines it passed since `cursor` besides `extra` redelivered ones.
        It stopped because no controller took the pending envelope, because the next line
        is not an event, or because the log is used up. */
    ghost predicate PassReport(r: ForwardResult, sent: seq<Post>, cursor: nat, extra: nat)
      reads this
    {
      && cursor <= cursorFile <= |log|
      && r.cursor == cursorFile && r.pending == pendingFile.Some?
      && (!r.pending ==> cursorFile == |log| || !valid(log[cursorFile..LineEnd(log, cursorFile)]))
      && (r.pending ==> LastRoundRefused())
      && r.failed == Rejected(wire) - Rejected(sent) + (if !r.pending && cursorFile < |log| then 1 else 0)
      && r.forwarded == LinesUpTo(log, cursorFile) - LinesUpTo(log, cursor) + extra
    }

    ghost predicate LastRoundRefused()
      reads this
    {
      controllers <= |wire| && Rejected(wire) == Rejected(wire[..|wire| - controllers]) + controllers
    }

    /** Forwards line after line; None when the machine stopped part-way. */
    method Scan(answers: nat -> bool, nonces: nat -> string, ghost from: State) returns (result: Option<ForwardResult>)
      requires At(from, Scanning)
      modifies this`wire, this`power, this`cursorFile, this`pendingFile, this`sequenceFile
      ensures At(from, Idle)
      ensures Truthful(old(Files()), Files(), answers) && (result.None? ==> power == 0)
      ensures pendingFile.Some? ==> old(cursorFile) < pendingFile.value.line
      ensures result.Some? ==> PassReport(result.value, old(wire), old(cursorFile), 0)
    {
      var forwarded, failed := 0, 0;
      while cursorFile < |log|
        invariant cursorFile <= |log| && Truthful(old(Files()), Files(), answers)
        invariant At(from, Scanning)
        invariant failed == Rejected(wire) - Rejected(old(wire))
        invariant forwarded == LinesUpTo(log, cursorFile) - LinesUpTo(log, old(cursorFile))
        decreases |log| - cursorFile
      {
        if !valid(log[cursorFile..LineEnd(log, cursorFile)]) {
          StopScanning(from, Files(), valid);
          return Some(ForwardResult(forwarded, failed + 1, cursorFile, false));
        }
        OneLine(log, cursorFile);
        ghost var before := Files();
        var accepted, failures, alive := ForwardLine(answers, nonces(sequenceFile), from);
        TruthfulThen(old(Files()), before, Files(), answers);
        if !alive {
          return None;
        }
        failed := failed + failures;
        if !accepted {
          return Some(ForwardResult(forwarded, failed, cursorFile, true));
        }
        forwarded := forwarded + 1;
      }
      StopScanning(from, Files(), valid);
      return Some(ForwardResult(forwarded, failed, cursorFile, false));
    }

    /** One pass; None when the machine stopped part-way. A pending envelope of a line the
        cursor has already passed counts once more when it is redelivered. */
    method Forward(answers: nat -> bool, nonces: nat -> string) returns (result: Option<ForwardResult>)
      requires Valid()
      modifies this`wire, this`power, this`cursorFile, this`pendingFile, this`sequenceFile
      ensures Valid() && Reaches(State(old(Files()), Idle), State(Files(), Idle), valid)
      ensures Truthful(old(Files()), Files(), answers) && (result.None? ==> power == 0)
      ensures result.Some? ==>
                PassReport(result.value, old(wire), old(cursorFile),
                           if old(pendingFile).Some? && old(pendingFile).value.line == old(cursorFile)
                              && pendingFile != old(pendingFile) then 1 else 0)
    {
      ghost var from := State(Files(), Idle);
      ReachesSelf(from, valid);
      ReachesStep(from, from, Start, valid);
      if pendingFile.None? {
        result := Scan(answers, nonces, from);
        return;
      }
      if pendingFile.value.line != cursorFile {
        PendingIsNext(log, cursorFile, pendingFile.value.line);
        OneLine(log, cursorFile);
      }
      var accepted, failures, alive := DeliverPending(answers, from);
      if !alive {
        return None;
      }
      if !accepted {
        return Some(ForwardResult(0, failures, cursorFile, true));
      }
      ghost var before := Files();
      result := Scan(answers, nonces, from);
      TruthfulThen(old(Files()), before, Files(), answers);
      if result.Some? {
        var r := result.value;
        result := Some(r.(forwarded := r.forwarded + 1, failed := r.failed + failures));
      }
    }
  }
}
