/** source_registry.hpp with one writer and any number of readers: an entry is written word by word,
    and then published by the store of the count. */
module RegistryRace {
  import opened Core
  import opened Registry

  /** What an entry consists of in memory; how long it is depends on the Config alone. */
  type Words = seq<int>

  /** `program` is what the writer registers, one after the other; `lookups` are the names each reader
      looks up; `matches` is the comparison of an entry with a name. */
  datatype System = System(
    width: nat, slots: nat, program: seq<Words>, lookups: seq<seq<string>>, matches: (Words, string) -> bool)

  predicate ValidSystem(sys: System) {
    forall k :: 0 <= k < |sys.program| ==> |sys.program[k]| == sys.width
  }

  datatype WriterPc =
    | Entering                       // about to load the count
    | Writing(idx: nat, w: nat)      // about to write word `w` of entry `idx`
    | Publishing(idx: nat)           // about to store the count

  /** `done` counts the registrations that have returned. */
  datatype Writer = Writer(done: nat, pc: WriterPc)

  /** A lookup that has loaded `bound` from the count and has read the words `got` of entry `i`. */
  datatype ReaderPc = Resting | Scanning(bound: nat, i: nat, got: Words)

  datatype Answer = Answer(name: string, bound: nat, found: Option<nat>)

  /** The answers a reader has got are those to its first lookups. */
  datatype Reader = Reader(answers: seq<Answer>, pc: ReaderPc)

  datatype State = State(count: nat, memory: seq<Words>, writer: Writer, readers: seq<Reader>)

  datatype Actor = TheWriter | TheReader(r: nat)

  predicate Shaped(sys: System, s: State) {
    && |s.memory| == sys.slots && (forall i :: 0 <= i < |s.memory| ==> |s.memory[i]| == sys.width)
    && s.count <= sys.slots && |s.readers| == |sys.lookups|
  }

  function StepWriter(sys: System, s: State): State
    requires ValidSystem(sys) && Shaped(sys, s)
  {
    var w := s.writer;
    if w.done >= |sys.program| then s
    else
      match w.pc
      case Entering =>
        if s.count >= sys.slots then s.(writer := Writer(w.done + 1, Entering))     // returns false
        else s.(writer := w.(pc := Writing(s.count, 0)))
      case Writing(idx, k) =>
        if k < sys.width && idx < sys.slots then
          s.(memory := s.memory[idx := s.memory[idx][k := sys.program[w.done][k]]],
             writer := w.(pc := Writing(idx, k + 1)))
        else s.(writer := w.(pc := Publishing(idx)))
      case Publishing(idx) =>
        s.(count := if idx < sys.slots then idx + 1 else s.count, writer := Writer(w.done + 1, Entering))
  }

  function StepReader(sys: System, s: State, r: nat): State
    requires Shaped(sys, s) && r < |s.readers|
  {
    var rd := s.readers[r];
    if |rd.answers| >= |sys.lookups[r]| then s
    else
      var name := sys.lookups[r][|rd.answers|];
      match rd.pc
      case Resting => s.(readers := s.readers[r := rd.(pc := Scanning(s.count, 0, []))])
      case Scanning(bound, i, got) =>
        var next :=
          if i >= bound || i >= |s.memory| then Reader(rd.answers + [Answer(name, bound, None)], Resting)
          else if |got| < |s.memory[i]| then rd.(pc := Scanning(bound, i, got + [s.memory[i][|got|]]))
          else if sys.matches(got, name) then Reader(rd.answers + [Answer(name, bound, Some(i))], Resting)
          else rd.(pc := Scanning(bound, i + 1, []));
        s.(readers := s.readers[r := next])
  }

  function Step(sys: System, s: State, a: Actor): State
    requires ValidSystem(sys) && Shaped(sys, s)
  {
    match a
    case TheWriter => StepWriter(sys, s)
    case TheReader(r) => if r < |s.readers| then StepReader(sys, s, r) else s
  }

  lemma StepShaped(sys: System, s: State, a: Actor)
    requires ValidSystem(sys) && Shaped(sys, s)
    ensures Shaped(sys, Step(sys, s, a))
  {
  }

  function Exec(sys: System, s: State, schedule: seq<Actor>): (e: State)
    requires ValidSystem(sys) && Shaped(sys, s)
    ensures Shaped(sys, e)
    decreases |schedule|
  {
    if schedule == [] then s
    else
      var before := Exec(sys, s, schedule[..|schedule| - 1]);
      StepShaped(sys, before, schedule[|schedule| - 1]);
      Step(sys, before, schedule[|schedule| - 1])
  }

  /** An empty registry, whatever is in its memory. */
  function Initial(sys: System, memory: seq<Words>): State {
    State(0, memory, Writer(0, Entering), seq(|sys.lookups|, _ => Reader([], Resting)))
  }

  // ----- the invariant

  /** The entry that a lookup finds among the first `bound` registrations. */
  function Match(sys: System, bound: nat, name: string): Option<nat>
    requires bound <= |sys.program|
  {
    First(sys.program[..bound], (e: Words) => sys.matches(e, name))
  }

  function Min(a: nat, b: nat): nat {
    if a < b then a else b
  }

  /** The first entries are the first registrations, complete; the writer is at work on the next one. */
  predicate WriterSound(sys: System, s: State) {
    && s.writer.done <= |sys.program|
    && s.count == Min(s.writer.done, sys.slots)
    && (forall i :: 0 <= i < s.count && i < |s.memory| && i < |sys.program| ==> s.memory[i] == sys.program[i])
    && match s.writer.pc
       case Entering => true
       case Writing(idx, k) => AtWork(sys, s, idx, k)
       case Publishing(idx) => AtWork(sys, s, idx, sys.width)
  }

  predicate AtWork(sys: System, s: State, idx: nat, k: nat) {
    && idx == s.count == s.writer.done < |sys.program| && idx < sys.slots == |s.memory|
    && k <= sys.width == |s.memory[idx]| == |sys.program[idx]|
    && forall j :: 0 <= j < k ==> s.memory[idx][j] == sys.program[idx][j]
  }

  predicate Answered(sys: System, count: nat, a: Answer) {
    a.bound <= count && a.bound <= |sys.program| && a.found == Match(sys, a.bound, a.name)
  }

  predicate ReaderSound(sys: System, count: nat, lookups: seq<string>, rd: Reader) {
    && |rd.answers| <= |lookups|
    && (forall k :: 0 <= k < |rd.answers| ==> rd.answers[k].name == lookups[k] && Answered(sys, count, rd.answers[k]))
    && (rd.pc.Scanning? ==> |rd.answers| < |lookups| && ScanSound(sys, count, lookups[|rd.answers|], rd.pc))
  }

  /** The reader has compared the entries before `i`, and what it has of entry `i` is not torn. */
  predicate ScanSound(sys: System, count: nat, name: string, pc: ReaderPc)
    requires pc.Scanning?
  {
    && pc.i <= pc.bound <= count <= |sys.program|
    && (forall j :: 0 <= j < pc.i ==> !sys.matches(sys.program[j], name))
    && (if pc.i < pc.bound then pc.got <= sys.program[pc.i] else pc.got == [])
  }

  predicate Inv(sys: System, s: State) {
    && ValidSystem(sys) && Shaped(sys, s) && WriterSound(sys, s)
    && forall r :: 0 <= r < |s.readers| ==> ReaderSound(sys, s.count, sys.lookups[r], s.readers[r])
  }

  lemma WriterStepSound(sys: System, s: State)
    requires Inv(sys, s)
    ensures var e := Step(sys, s, TheWriter);
            WriterSound(sys, e) && e.readers == s.readers && s.count <= e.count <= |sys.program|
  {
  }

  lemma CountGrows(sys: System, count: nat, count': nat, lookups: seq<string>, rd: Reader)
    requires ReaderSound(sys, count, lookups, rd) && count <= count' <= |sys.program|
    ensures ReaderSound(sys, count', lookups, rd)
  {
  }

  lemma ReaderStepSound(sys: System, s: State, r: nat)
    requires Inv(sys, s) && r < |s.readers|
    ensures ReaderSound(sys, s.count, sys.lookups[r], StepReader(sys, s, r).readers[r])
  {
    var rd := s.readers[r];
    if |rd.answers| < |sys.lookups[r]| && rd.pc.Scanning? {
      assert ReaderSound(sys, s.count, sys.lookups[r], rd);
      var name := sys.lookups[r][|rd.answers|];
      var Scanning(bound, i, got) := rd.pc;
      var p := (e: Words) => sys.matches(e, name);
      if i < bound {
        assert s.memory[i] == sys.program[i];
        if |got| == sys.width {
          assert got == sys.program[i];
        }
      }
      assert forall j :: 0 <= j < bound ==> sys.program[..bound][j] == sys.program[j];
    }
  }

  lemma StepKeeps(sys: System, s: State, a: Actor)
    requires Inv(sys, s)
    ensures Inv(sys, Step(sys, s, a)) && s.count <= Step(sys, s, a).count
  {
    StepShaped(sys, s, a);
    match a
    case TheWriter =>
      WriterStepSound(sys, s);
      forall r | 0 <= r < |s.readers|
        ensures ReaderSound(sys, Step(sys, s, a).count, sys.lookups[r], s.readers[r])
      {
        CountGrows(sys, s.count, Step(sys, s, a).count, sys.lookups[r], s.readers[r]);
      }
    case TheReader(r) =>
      if r < |s.readers| {
        ReaderStepSound(sys, s, r);
      }
  }

  lemma {:induction false} ExecKeeps(sys: System, s: State, schedule: seq<Actor>)
    requires Inv(sys, s)
    ensures Inv(sys, Exec(sys, s, schedule)) && s.count <= Exec(sys, s, schedule).count
    decreases |schedule|
  {
    if schedule != [] {
      var n := |schedule| - 1;
      ExecKeeps(sys, s, schedule[..n]);
      StepKeeps(sys, Exec(sys, s, schedule[..n]), schedule[n]);
    }
  }

  lemma InitialInv(sys: System, memory: seq<Words>)
    requires ValidSystem(sys) && |memory| == sys.slots
    requires forall i :: 0 <= i < |memory| ==> |memory[i]| == sys.width
    ensures Inv(sys, Initial(sys, memory))
  {
  }

  // ----- the main results

  /** The memory and the programs of a run. */
  predicate Start(sys: System, memory: seq<Words>) {
    && ValidSystem(sys) && |memory| == sys.slots
    && forall i :: 0 <= i < |memory| ==> |memory[i]| == sys.width
  }

  /** The entry of which a reader is about to read a word. */
  function Touches(sys: System, s: State, r: nat): Option<nat>
    requires Shaped(sys, s) && r < |s.readers|
  {
    var rd := s.readers[r];
    if |rd.answers| < |sys.lookups[r]| && rd.pc.Scanning? && rd.pc.i < rd.pc.bound
       && rd.pc.i < |s.memory| && |rd.pc.got| < |s.memory[rd.pc.i]|
    then Some(rd.pc.i) else None
  }

  /** The entry that the writer is at work on, if any: the only one it writes to. */
  function WritesTo(s: State): Option<nat> {
    match s.writer.pc
    case Entering => None
    case Writing(idx, _) => Some(idx)
    case Publishing(idx) => Some(idx)
  }

  /** A step changes no entry but the one the writer is at work on. */
  lemma OnlyThatEntryChanges(sys: System, s: State, a: Actor, i: nat)
    requires ValidSystem(sys) && Shaped(sys, s) && i < |s.memory| && WritesTo(s) != Some(i)
    ensures Step(sys, s, a).memory[i] == s.memory[i]
  {
  }

  lemma {:induction false} PublishedStays(sys: System, s: State, schedule: seq<Actor>, i: nat)
    requires Inv(sys, s) && i < s.count
    ensures i < |sys.program| && Exec(sys, s, schedule).memory[i] == s.memory[i] == sys.program[i]
    decreases |schedule|
  {
    if schedule != [] {
      var n := |schedule| - 1;
      PublishedStays(sys, s, schedule[..n], i);
      ExecKeeps(sys, s, schedule[..n]);
      StepKeeps(sys, Exec(sys, s, schedule[..n]), schedule[n]);
    }
  }

  /** Readers touch only entries that are completely written and that the writer is never at again,
      however the run goes on: it never writes to them, not even the same words. */
  lemma ReadersTouchCompleteEntries(sys: System, memory: seq<Words>, schedule: seq<Actor>, further: seq<Actor>, r: nat)
    requires Start(sys, memory) && r < |sys.lookups|
    requires Touches(sys, Exec(sys, Initial(sys, memory), schedule), r).Some?
    ensures var s := Exec(sys, Initial(sys, memory), schedule);
            var i := Touches(sys, s, r).value;
            && i < s.count && i < |sys.program|
            && WritesTo(Exec(sys, s, further)) != Some(i)
            && s.memory[i] == Exec(sys, s, further).memory[i] == sys.program[i]
  {
    InitialInv(sys, memory);
    ExecKeeps(sys, Initial(sys, memory), schedule);
    var s := Exec(sys, Initial(sys, memory), schedule);
    assert ReaderSound(sys, s.count, sys.lookups[r], s.readers[r]);
    ExecKeeps(sys, s, further);
    PublishedStays(sys, s, further, Touches(sys, s, r).value);
  }

  /** Every lookup gives the first match among the registrations that were published when it loaded
      the count. */
  lemma LookupIsFirstMatch(sys: System, memory: seq<Words>, schedule: seq<Actor>, r: nat, k: nat)
    requires Start(sys, memory) && r < |sys.lookups|
    requires k < |Exec(sys, Initial(sys, memory), schedule).readers[r].answers|
    ensures var s := Exec(sys, Initial(sys, memory), schedule);
            var a := s.readers[r].answers[k];
            && a.bound <= s.count <= |sys.program|
            && k < |sys.lookups[r]| && a.name == sys.lookups[r][k]
            && a.found == Match(sys, a.bound, a.name)
  {
    InitialInv(sys, memory);
    ExecKeeps(sys, Initial(sys, memory), schedule);
    var s := Exec(sys, Initial(sys, memory), schedule);
    assert ReaderSound(sys, s.count, sys.lookups[r], s.readers[r]);
  }

  lemma MatchStays(sys: System, low: nat, high: nat, name: string)
    requires low <= high <= |sys.program|
    ensures Match(sys, low, name).Some? ==> Match(sys, high, name) == Match(sys, low, name)
  {
    if Match(sys, low, name).Some? {
      FirstStays(sys.program[..low], sys.program[..high], (e: Words) => sys.matches(e, name));
    }
  }

  /** Two lookups of one name that both find it, by whichever readers, find the same entry. */
  lemma FoundIsTheSame(sys: System, memory: seq<Words>, schedule: seq<Actor>, r: nat, k: nat, q: nat, l: nat)
    requires Start(sys, memory) && r < |sys.lookups| && q < |sys.lookups|
    requires var rs := Exec(sys, Initial(sys, memory), schedule).readers;
             && k < |rs[r].answers| && l < |rs[q].answers| && rs[r].answers[k].name == rs[q].answers[l].name
             && rs[r].answers[k].found.Some? && rs[q].answers[l].found.Some?
    ensures var rs := Exec(sys, Initial(sys, memory), schedule).readers;
            rs[r].answers[k].found == rs[q].answers[l].found
  {
    LookupIsFirstMatch(sys, memory, schedule, r, k);
    LookupIsFirstMatch(sys, memory, schedule, q, l);
    var rs := Exec(sys, Initial(sys, memory), schedule).readers;
    var a, b := rs[r].answers[k], rs[q].answers[l];
    if a.bound <= b.bound {
      MatchStays(sys, a.bound, b.bound, a.name);
    } else {
      MatchStays(sys, b.bound, a.bound, a.name);
    }
  }

  /** The lookups that reader `r` starts from now on load at least the present count. */
  lemma {:induction false} LaterBounds(sys: System, s: State, schedule: seq<Actor>, r: nat)
    requires Inv(sys, s) && r < |s.readers| && s.readers[r].pc.Resting?
    ensures var rd := Exec(sys, s, schedule).readers[r];
            && |s.readers[r].answers| <= |rd.answers|
            && (rd.pc.Scanning? ==> s.count <= rd.pc.bound)
            && forall k :: |s.readers[r].answers| <= k < |rd.answers| ==> s.count <= rd.answers[k].bound
    decreases |schedule|
  {
    if schedule != [] {
      var n := |schedule| - 1;
      LaterBounds(sys, s, schedule[..n], r);
      ExecKeeps(sys, s, schedule[..n]);
    }
  }

  /** A registration that has returned, and that was not refused, is found by every lookup that starts
      after it, at this place or at an earlier one; and a name that has been found once resolves to the
      same entry in every lookup that starts afterwards, for ever. */
  lemma FoundForEver(sys: System, memory: seq<Words>, schedule: seq<Actor>, further: seq<Actor>, r: nat, k: nat, i: nat)
    requires Start(sys, memory) && r < |sys.lookups|
    requires var s := Exec(sys, Initial(sys, memory), schedule);
             var e := Exec(sys, s, further);
             && s.readers[r].pc.Resting? && |s.readers[r].answers| <= k < |e.readers[r].answers|
             && i < s.writer.done && i < sys.slots && i < |sys.program|
             && sys.matches(sys.program[i], e.readers[r].answers[k].name)
    ensures var s := Exec(sys, Initial(sys, memory), schedule);
            var a := Exec(sys, s, further).readers[r].answers[k];
            && s.count <= |sys.program|
            && a.found.Some? && a.found.value <= i
            && a.found == Match(sys, s.count, a.name)
  {
    InitialInv(sys, memory);
    ExecKeeps(sys, Initial(sys, memory), schedule);
    var s := Exec(sys, Initial(sys, memory), schedule);
    ExecKeeps(sys, s, further);
    LaterBounds(sys, s, further, r);
    var e := Exec(sys, s, further);
    assert ReaderSound(sys, e.count, sys.lookups[r], e.readers[r]);
    var a := e.readers[r].answers[k];
    assert sys.program[..s.count][i] == sys.program[i];
    MatchStays(sys, s.count, a.bound, a.name);
  }
}
