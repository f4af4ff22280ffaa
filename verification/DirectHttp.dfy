/** The response pipe between a handler that writes and the goroutines that wait for the
    headers and the body, with one mutex and one condition variable. */
module DirectHttp {
  import opened Collections

  type Bytes = seq<bv8>

  /** `Response` waits for the headers, `Read(n)` for up to `n` bytes of the body. */
  datatype Call = Response | Read(n: nat)
  datatype Task = Ready(call: Call) | Asleep(call: Call)
  datatype Outcome = Headers(code: int) | Data(bytes: Bytes) | Eof

  datatype Pipe = Pipe(statusCode: int, wroteHeader: bool, done: bool, body: Bytes)

  /** `written` and `read` are the whole history of the body. */
  datatype State = State(pipe: Pipe, tasks: map<nat, Task>, written: Bytes, read: Bytes, results: seq<Outcome>)

  /** `Run(t)` is what goroutine `t` does from taking the lock until it waits or returns; the
      other three are the handler's lock sections. */
  datatype Event =
    | Begin(t: nat, call: Call)
    | Run(t: nat)
    | Write(bytes: Bytes)
    | WriteHeader(code: int)
    | Close

  const INITIAL := State(Pipe(0, false, false, []), map[], [], [], [])

  /** `bytes.Buffer.Read`, then what `Read` makes of it: nothing means wait. */
  function ReadOutcome(p: Pipe, n: nat): Option<Outcome> {
    if n == 0 then Some(Data([]))
    else if p.body != [] then Some(Data(if n < |p.body| then p.body[..n] else p.body))
    else if p.done then Some(Eof)
    else None
  }

  function CallOutcome(p: Pipe, call: Call): Option<Outcome> {
    match call
    case Response => if p.wroteHeader then Some(Headers(if p.statusCode == 0 then 200 else p.statusCode)) else None
    case Read(n) => ReadOutcome(p, n)
  }

  /** `Broadcast`: everyone asleep competes for the lock again. */
  function Woken(tasks: map<nat, Task>): map<nat, Task> {
    map t | t in tasks :: Ready(tasks[t].call)
  }

  function Step(s: State, e: Event): State {
    match e
    case Begin(t, call) => if t in s.tasks then s else s.(tasks := s.tasks[t := Ready(call)])
    case Run(t) =>
      if t !in s.tasks || s.tasks[t].Asleep? then s
      else
        var outcome := CallOutcome(s.pipe, s.tasks[t].call);
        if outcome.None? then s.(tasks := s.tasks[t := Asleep(s.tasks[t].call)])
        else
          var taken := if outcome.value.Data? then outcome.value.bytes else [];
          s.(tasks := s.tasks - {t}, results := s.results + [outcome.value],
             pipe := s.pipe.(body := s.pipe.body[|taken|..]), read := s.read + taken)
    case Write(bytes) =>
      s.(pipe := s.pipe.(wroteHeader := true, body := s.pipe.body + bytes), tasks := Woken(s.tasks),
         written := s.written + bytes)
    case WriteHeader(code) => s.(pipe := s.pipe.(wroteHeader := true, statusCode := code), tasks := Woken(s.tasks))
    case Close => s.(pipe := s.pipe.(wroteHeader := true, done := true), tasks := Woken(s.tasks))
  }

  function Steps(s: State, events: seq<Event>): State {
    if events == [] then s else Step(Steps(s, events[..|events| - 1]), events[|events| - 1])
  }

  /** Nothing is lost, repeated or reordered, and no one sleeps through what they wait for. */
  predicate Inv(s: State) {
    && s.written == s.read + s.pipe.body
    && forall t :: t in s.tasks && s.tasks[t].Asleep? ==> CallOutcome(s.pipe, s.tasks[t].call).None?
  }

  lemma StepKeepsInv(s: State, e: Event)
    requires Inv(s)
    ensures Inv(Step(s, e))
  {
    if e.Run? && e.t in s.tasks && s.tasks[e.t].Ready? {
      RunKeepsInv(s, e.t);
    }
  }

  lemma RunKeepsInv(s: State, t: nat)
    requires Inv(s) && t in s.tasks && s.tasks[t].Ready?
    ensures Inv(Step(s, Run(t)))
  {
    var outcome := CallOutcome(s.pipe, s.tasks[t].call);
    if outcome.Some? && outcome.value.Data? {
      var taken := outcome.value.bytes;
      assert s.pipe.body == taken + s.pipe.body[|taken|..];
      SleepersStay(s, t);
    }
  }

  /** Taking bytes cannot satisfy a sleeper: with one asleep on the body there are none. */
  lemma SleepersStay(s: State, t: nat)
    requires Inv(s) && t in s.tasks && s.tasks[t].Ready?
    ensures forall u :: u in s.tasks && s.tasks[u].Asleep? ==>
              CallOutcome(Step(s, Run(t)).pipe, s.tasks[u].call).None?
  {
    forall u | u in s.tasks && s.tasks[u].Asleep? ensures CallOutcome(Step(s, Run(t)).pipe, s.tasks[u].call).None? {
      assert CallOutcome(s.pipe, s.tasks[u].call).None?;
    }
  }

  lemma {:induction false} EveryRunKeepsInv(events: seq<Event>)
    ensures Inv(Steps(INITIAL, events))
  {
    if events != [] {
      EveryRunKeepsInv(events[..|events| - 1]);
      StepKeepsInv(Steps(INITIAL, events[..|events| - 1]), events[|events| - 1]);
    }
  }

  /** In every interleaving the bytes read followed by the bytes buffered are the bytes written,
      and whoever sleeps has reason to: no header yet, or nothing to read and no end. */
  lemma {:induction false} PipeIsFaithful(events: seq<Event>)
    ensures var s := Steps(INITIAL, events);
            && s.written == s.read + s.pipe.body
            && forall t :: t in s.tasks && s.tasks[t].Asleep? ==>
                 match s.tasks[t].call
                 case Response => !s.pipe.wroteHeader
                 case Read(n) => n > 0 && s.pipe.body == [] && !s.pipe.done
  {
    EveryRunKeepsInv(events);
  }

  /** What the readers were handed, in the order they got it. */
  function Handed(results: seq<Outcome>): Bytes {
    if results == [] then []
    else
      var last := results[|results| - 1];
      Handed(results[..|results| - 1]) + if last.Data? then last.bytes else []
  }

  lemma {:induction false} HandedIsRead(events: seq<Event>)
    ensures Handed(Steps(INITIAL, events).results) == Steps(INITIAL, events).read
  {
    if events != [] {
      var before, after := Steps(INITIAL, events[..|events| - 1]), Steps(INITIAL, events);
      HandedIsRead(events[..|events| - 1]);
      assert |after.results| > |before.results| ==> after.results[..|after.results| - 1] == before.results;
    }
  }

  /** What the handler wrote, told from the events. */
  function Output(events: seq<Event>): Bytes {
    if events == [] then []
    else
      var last := events[|events| - 1];
      Output(events[..|events| - 1]) + if last.Write? then last.bytes else []
  }

  lemma {:induction false} WrittenIsOutput(events: seq<Event>)
    ensures Steps(INITIAL, events).written == Output(events)
  {
    if events != [] {
      WrittenIsOutput(events[..|events| - 1]);
    }
  }

  /** A read that asks for bytes is handed the next ones of the output, as many as it asked for or
      as there are; with none left it is told the end if the pipe is closed, and sleeps if not. */
  lemma {:induction false} ReadsTakeTheNextBytes(events: seq<Event>, t: nat, n: nat)
    requires var s := Steps(INITIAL, events); t in s.tasks && s.tasks[t] == Ready(Read(n)) && n > 0
    ensures var s := Steps(INITIAL, events);
            && Handed(s.results) <= Output(events)
            && var left, after := Output(events)[|Handed(s.results)|..], Step(s, Run(t));
               if left != [] then
                 after.results == s.results + [Data(if n < |left| then left[..n] else left)] && t !in after.tasks
               else if Close in events then after.results == s.results + [Eof] && t !in after.tasks
               else after.results == s.results && after.tasks[t] == Asleep(Read(n))
  {
    EveryRunKeepsInv(events);
    HandedIsRead(events);
    WrittenIsOutput(events);
    DoneMeansClosed(events);
    var s := Steps(INITIAL, events);
    assert Output(events)[|s.read|..] == s.pipe.body;
  }

  /** The handler has returned when the pipe is closed. */
  predicate SilentAfterClose(events: seq<Event>) {
    forall i, j :: 0 <= i < j < |events| && events[i].Close? ==> !events[j].Write? && !events[j].WriteHeader?
  }

  lemma {:induction false} DoneMeansClosed(events: seq<Event>)
    ensures Steps(INITIAL, events).pipe.done <==> Close in events
  {
    if events != [] {
      DoneMeansClosed(events[..|events| - 1]);
      assert events == events[..|events| - 1] + [events[|events| - 1]];
    }
  }

  /** The end is reported only once everything ever written has been handed out, in order. */
  lemma {:induction false} EofMeansEverythingRead(events: seq<Event>)
    requires SilentAfterClose(events) && Eof in Steps(INITIAL, events).results
    ensures Close in events && Handed(Steps(INITIAL, events).results) == Steps(INITIAL, events).written
  {
    var front, last := events[..|events| - 1], events[|events| - 1];
    var before := Steps(INITIAL, front);
    EveryRunKeepsInv(events);
    HandedIsRead(events);
    DoneMeansClosed(events);
    if Eof in before.results {
      EofMeansEverythingRead(front);
      HandedIsRead(front);
      EveryRunKeepsInv(front);
      var i :| 0 <= i < |front| && front[i] == Close;
      assert events[i] == Close;
      assert before.pipe.body == [];
    }
  }

  /** At the moment it is reported, with or without late writes: closed and drained, and then
      always. */
  lemma {:induction false} EofExactlyWhenDrained(events: seq<Event>, t: nat, n: nat)
    requires n > 0
    requires var s := Steps(INITIAL, events); t in s.tasks && s.tasks[t] == Ready(Read(n))
    ensures var s := Steps(INITIAL, events);
            Step(s, Run(t)).results == s.results + [Eof] <==> Close in events && Handed(s.results) == s.written
  {
    DoneMeansClosed(events);
    HandedIsRead(events);
    EveryRunKeepsInv(events);
    var s := Steps(INITIAL, events);
    assert forall o :: s.results + [o] == s.results + [Eof] ==> (s.results + [o])[|s.results|] == Eof;
    assert s.results != s.results + [Eof];
  }

  // After the close.

  /** Nobody is left waiting, and whoever runs returns. */
  lemma {:induction false} ClosedNeverBlocks(events: seq<Event>, t: nat)
    requires Close in events
    ensures var s := Steps(INITIAL, events);
            t in s.tasks ==> s.tasks[t].Ready? && t !in Step(s, Run(t)).tasks
  {
    DoneMeansClosed(events);
    EveryRunKeepsInv(events);
    HeaderIsKnownWhenDone(events);
    var s := Steps(INITIAL, events);
    if t in s.tasks {
      assert CallOutcome(s.pipe, s.tasks[t].call).Some?;
    }
  }

  lemma {:induction false} HeaderIsKnownWhenDone(events: seq<Event>)
    ensures Steps(INITIAL, events).pipe.done ==> Steps(INITIAL, events).pipe.wroteHeader
  {
    if events != [] {
      HeaderIsKnownWhenDone(events[..|events| - 1]);
    }
  }

  /** The last status written so far, 200 if none or zero. */
  function LastCode(events: seq<Event>): int {
    if events == [] then 0
    else
      var last := events[|events| - 1];
      if last.WriteHeader? then last.code else LastCode(events[..|events| - 1])
  }

  lemma {:induction false} StatusIsLast(events: seq<Event>)
    ensures Steps(INITIAL, events).pipe.statusCode == LastCode(events)
  {
    if events != [] {
      StatusIsLast(events[..|events| - 1]);
    }
  }

  /** Headers are handed out only after the handler has written or returned, with the last
      status it set by then. */
  lemma {:induction false} HeadersFollowTheHandler(events: seq<Event>, t: nat)
    requires var s := Steps(INITIAL, events); t in s.tasks && s.tasks[t] == Ready(Response)
    ensures var s := Steps(INITIAL, events);
            var after := Step(s, Run(t));
            if exists e :: e in events && (e.Write? || e.WriteHeader? || e.Close?)
            then after.results == s.results + [Headers(if LastCode(events) == 0 then 200 else LastCode(events))]
            else after.results == s.results && after.tasks[t] == Asleep(Response)
  {
    StatusIsLast(events);
    HeaderMeansHandler(events);
  }

  lemma {:induction false} HeaderMeansHandler(events: seq<Event>)
    ensures Steps(INITIAL, events).pipe.wroteHeader <==>
            exists e :: e in events && (e.Write? || e.WriteHeader? || e.Close?)
  {
    if events != [] {
      var front, last := events[..|events| - 1], events[|events| - 1];
      HeaderMeansHandler(front);
      assert events == front + [last];
      assert forall e :: e in events <==> e in front || e == last;
    }
  }

  /** The lock sections as the program runs them. `tasks` is who competes for the lock and who
      sleeps on the condition variable. */
  class DirectResponseWriter {
    var statusCode: int
    var wroteHeader: bool
    var done: bool
    var body: Bytes
    var tasks: map<nat, Task>
    ghost var state: State

    ghost predicate Valid()
      reads this
    {
      state.pipe == Pipe(statusCode, wroteHeader, done, body) && state.tasks == tasks
    }

    constructor ()
      ensures Valid() && state == INITIAL
    {
      statusCode, wroteHeader, done, body, tasks, state := 0, false, false, [], map[], INITIAL;
    }

    /** A goroutine calls `response` or `Read`. */
    method BeginCall(t: nat, call: Call)
      requires Valid() && t !in tasks
      modifies this`tasks, this`state
      ensures Valid() && state == Step(old(state), Begin(t, call))
    {
      tasks := tasks[t := Ready(call)];
      state := Step(state, Begin(t, call));
    }

    /** `cond.Wait()` when there is no outcome; otherwise the call returns. */
    method WaitOrReturn(t: nat, outcome: Option<Outcome>)
      requires t in tasks
      modifies this`tasks
      ensures tasks == if outcome.None? then old(tasks)[t := Asleep(old(tasks)[t].call)] else old(tasks) - {t}
    {
      if outcome.None? {
        tasks := tasks[t := Asleep(tasks[t].call)];
      } else {
        tasks := tasks - {t};
      }
    }

    /** `cond.Broadcast()`: wakes the sleepers one by one. */
    method Broadcast()
      modifies this`tasks
      ensures tasks == Woken(old(tasks))
      ensures tasks.Keys == old(tasks).Keys && forall t :: t in tasks ==> tasks[t] == Ready(old(tasks)[t].call)
    {
      var rest := tasks.Keys;
      while rest != {}
        invariant rest <= tasks.Keys == old(tasks).Keys
        invariant forall t :: t in tasks ==> tasks[t] == if t in rest then old(tasks)[t] else Ready(old(tasks)[t].call)
        decreases rest
      {
        var t :| t in rest;
        if tasks[t].Asleep? {
          tasks := tasks[t := Ready(tasks[t].call)];
        }
        rest := rest - {t};
      }
    }

    /** `bytes.Buffer.Read` into a slice of length `n`: what it copied, and whether it says EOF. */
    method ReadBuffer(n: nat) returns (data: Bytes, eof: bool)
      modifies this`body
      ensures data + body == old(body) && |data| <= n
      ensures eof <==> n > 0 && old(body) == []
      ensures |data| == if n < |old(body)| then n else |old(body)|
    {
      if body == [] {
        data, eof := [], n > 0;
      } else {
        var k := if n < |body| then n else |body|;
        data, eof := body[..k], false;
        body := body[k..];
      }
    }

    /** One turn of the loop in `Read`; no outcome means it waits. */
    method ReadTurn(t: nat, n: nat) returns (outcome: Option<Outcome>)
      requires Valid() && t in tasks && tasks[t] == Ready(Call.Read(n))
      modifies this`body, this`tasks, this`state
      ensures Valid() && state == Step(old(state), Run(t))
      ensures outcome == if n == 0 then Some(Data([]))
                         else if old(body) == [] then (if done then Some(Eof) else None)
                         else Some(Data(if n < |old(body)| then old(body)[..n] else old(body)))
      ensures body == if n < |old(body)| then old(body)[n..] else []
      ensures tasks == if outcome.None? then old(tasks)[t := Asleep(Call.Read(n))] else old(tasks) - {t}
    {
      var data, eof := ReadBuffer(n);
      assert data == old(body)[..|data|] && body == old(body)[|data|..];
      assert old(body)[0..] == old(body) == old(body)[..|old(body)|];
      if |data| == 0 && eof {
        outcome := if done then Some(Eof) else None;
      } else {
        outcome := Some(Data(data));
      }
      WaitOrReturn(t, outcome);
      state := Step(state, Run(t));
    }

    /** One turn of the loop in `response`. */
    method ResponseTurn(t: nat) returns (outcome: Option<Outcome>)
      requires Valid() && t in tasks && tasks[t] == Ready(Response)
      modifies this`tasks, this`state
      ensures Valid() && state == Step(old(state), Run(t))
      ensures outcome == if !wroteHeader then None
                         else Some(Headers(if statusCode == 0 then 200 else statusCode))
      ensures tasks == if outcome.None? then old(tasks)[t := Asleep(Response)] else old(tasks) - {t}
    {
      if !wroteHeader {
        outcome := None;
      } else {
        var code := statusCode;
        if code == 0 {
          code := 200;
        }
        outcome := Some(Headers(code));
      }
      WaitOrReturn(t, outcome);
      state := Step(state, Run(t));
    }

    method WriteBytes(bytes: Bytes)
      requires Valid()
      modifies this
      ensures Valid() && state == Step(old(state), Write(bytes))
      ensures body == old(body) + bytes && wroteHeader && done == old(done) && statusCode == old(statusCode)
      ensures tasks.Keys == old(tasks).Keys && forall t :: t in tasks ==> tasks[t] == Ready(old(tasks)[t].call)
    {
      if !wroteHeader {
        wroteHeader := true;
      }
      body := body + bytes;
      Broadcast();
      state := Step(state, Write(bytes));
    }

    method WriteStatus(code: int)
      requires Valid()
      modifies this
      ensures Valid() && state == Step(old(state), WriteHeader(code))
      ensures body == old(body) && wroteHeader && done == old(done) && statusCode == code
      ensures tasks.Keys == old(tasks).Keys && forall t :: t in tasks ==> tasks[t] == Ready(old(tasks)[t].call)
    {
      statusCode := code;
      wroteHeader := true;
      Broadcast();
      state := Step(state, WriteHeader(code));
    }

    method CloseBody()
      requires Valid()
      modifies this
      ensures Valid() && state == Step(old(state), Close)
      ensures body == old(body) && wroteHeader && done && statusCode == old(statusCode)
      ensures tasks.Keys == old(tasks).Keys && forall t :: t in tasks ==> tasks[t] == Ready(old(tasks)[t].call)
    {
      if !wroteHeader {
        wroteHeader := true;
      }
      done := true;
      Broadcast();
      state := Step(state, Close);
    }
  }
}
