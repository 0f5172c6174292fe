/**
 * Seeded randomness for overlapping materialisations (typst-materialize.ts): the generator, the
 * seed taken from a text, and the global functions that dispatch to the calling run.
 */
module RandomDispatch {
  import opened Wrappers

  type Word = bv32

  /** A UTF-16 code unit, as `charCodeAt` gives it. */
  type Unit = bv16

  // ---------- The generator ----------

  /** One step of `createRandom`. */
  function Next(state: Word): Word {
    var a := state ^ (state << 13);
    var b := a ^ (a >> 17);
    b ^ (b << 5)
  }

  /** The step undone. */
  function Previous(state: Word): Word {
    var b := state ^ (state << 5) ^ (state << 10) ^ (state << 15) ^ (state << 20) ^ (state << 25)
             ^ (state << 30);
    var a := b ^ (b >> 17);
    a ^ (a << 13) ^ (a << 26)
  }

  // The next four lemmas spell the shifts out, so that the solver simplifies one closed term.

  lemma UnfoldNext(s: Word)
    ensures Next(s) == var a := s ^ (s << 13); var b := a ^ (a >> 17); b ^ (b << 5)
  {
  }

  lemma UnfoldPrevious(s: Word)
    ensures
      Previous(s)
      == var b := s ^ (s << 5) ^ (s << 10) ^ (s << 15) ^ (s << 20) ^ (s << 25) ^ (s << 30);
         var a := b ^ (b >> 17);
         a ^ (a << 13) ^ (a << 26)
  {
  }

  lemma PreviousOfStep(s: Word)
    ensures Previous(var a := s ^ (s << 13); var b := a ^ (a >> 17); b ^ (b << 5)) == s
  {
  }

  lemma NextOfStepBack(s: Word)
    ensures
      Next(var b := s ^ (s << 5) ^ (s << 10) ^ (s << 15) ^ (s << 20) ^ (s << 25) ^ (s << 30);
           var a := b ^ (b >> 17);
           a ^ (a << 13) ^ (a << 26))
      == s
  {
  }

  /** The generator is a bijection on 32-bit words. */
  lemma NextIsBijection(state: Word)
    ensures Previous(Next(state)) == state
    ensures Next(Previous(state)) == state
  {
    hide *;
    PreviousOfStep(state);
    UnfoldNext(state);
    NextOfStepBack(state);
    UnfoldPrevious(state);
  }

  lemma NextOfZero()
    ensures Next(0) == 0
  {
  }

  /** No seed but zero ever leads to zero. */
  lemma NextIsNotZero(state: Word)
    requires state != 0
    ensures Next(state) != 0
  {
    NextIsBijection(state);
    NextIsBijection(0);
    NextOfZero();
    hide Next, Previous;
  }

  /** The word after `n` steps. */
  function Iterate(seed: Word, n: nat): Word {
    if n == 0 then seed else Next(Iterate(seed, n - 1))
  }

  /** The first `n` words that a generator gives. */
  function Stream(seed: Word, n: nat): (words: seq<Word>)
    ensures |words| == n
  {
    if n == 0 then [] else Stream(seed, n - 1) + [Iterate(seed, n)]
  }

  lemma {:induction false} StreamIsNotZero(seed: Word, n: nat)
    requires seed != 0
    ensures Iterate(seed, n) != 0
    ensures forall i | 0 <= i < n :: Stream(seed, n)[i] != 0
  {
    if n > 0 {
      StreamIsNotZero(seed, n - 1);
      NextIsNotZero(Iterate(seed, n - 1));
      hide Next;
    }
  }

  /** Streams tell seeds apart from their first word on. */
  lemma SeedsGiveDistinctStreams(seed: Word, other: Word, n: nat)
    requires n > 0 && Stream(seed, n) == Stream(other, n)
    ensures seed == other
  {
    StreamAt(seed, n);
    StreamAt(other, n);
    NextIsBijection(seed);
    NextIsBijection(other);
    hide Next, Previous;
    assert Iterate(seed, 1) == Next(seed) && Iterate(other, 1) == Next(other);
  }

  lemma {:induction false} StreamAt(seed: Word, n: nat)
    requires n > 0
    ensures Stream(seed, n)[0] == Iterate(seed, 1)
  {
    if n > 1 {
      StreamAt(seed, n - 1);
    }
  }

  /** The first words of the stream that begins with one. */
  lemma NextVectors()
    ensures Next(1) == 270369 && Next(270369) == 67634689
  {}

  // ---------- What the callers see ----------

  const RANGE := 4294967296

  /** The value of the dispatching `Math.random`. */
  function Quotient(word: Word): real {
    word as int as real / RANGE as real
  }

  lemma QuotientIsBelowOne(word: Word)
    ensures 0.0 <= Quotient(word) < 1.0
    ensures word != 0 ==> 0.0 < Quotient(word)
  {
  }

  function LowByte(word: Word): bv8 {
    (word & 255) as bv8
  }

  // ---------- The seed ----------

  const OFFSET: Word := 0x811c9dc5
  const FALLBACK: Word := 0x9e3779b9

  function Mixed(hash: Word, unit: Unit): Word {
    Multiplied(Toggled(hash, unit))
  }

  function Toggled(hash: Word, unit: Unit): Word {
    hash ^ unit as Word
  }

  function Multiplied(word: Word): Word {
    word * 0x01000193
  }

  function HashOf(text: seq<Unit>): Word {
    if text == [] then OFFSET else Mixed(HashOf(text[..|text| - 1]), text[|text| - 1])
  }

  function SeedOf(text: seq<Unit>): (seed: Word)
    ensures seed != 0
  {
    if HashOf(text) == 0 then FALLBACK else HashOf(text)
  }

  /** The prime is odd: the product with its inverse gives the word back. */
  function Divided(word: Word): Word {
    word * 0x359c449b
  }

  lemma ProductUndone(word: Word)
    ensures Divided(word * 0x01000193) == word
  {}

  lemma Undone(word: Word)
    ensures Divided(Multiplied(word)) == word
  {
    hide Divided;
    ProductUndone(word);
  }

  lemma ToggledApart(a: Word, b: Word, unit: Unit, other: Unit)
    ensures Toggled(a, unit) == Toggled(b, other) && a == b ==> unit == other
    ensures Toggled(a, unit) == Toggled(b, other) && unit == other ==> a == b
  {}

  /** One step tells the units apart, and the hashes before it. */
  lemma MixedApart(a: Word, b: Word, unit: Unit, other: Unit)
    ensures Mixed(a, unit) == Mixed(b, other) && a == b ==> unit == other
    ensures Mixed(a, unit) == Mixed(b, other) && unit == other ==> a == b
  {
    hide Multiplied, Divided, Toggled;
    Undone(Toggled(a, unit));
    Undone(Toggled(b, other));
    ToggledApart(a, b, unit, other);
  }

  /** Texts that differ in one unit have different hashes, so their seeds agree only by the fallback. */
  lemma {:induction false} OneUnitApart(text: seq<Unit>, i: nat, unit: Unit)
    requires i < |text| && unit != text[i]
    ensures HashOf(text) != HashOf(text[i := unit])
    ensures SeedOf(text) == SeedOf(text[i := unit]) ==>
              HashOf(text) == 0 || HashOf(text[i := unit]) == 0
    decreases |text|
  {
    hide Mixed;
    var last, other := |text| - 1, text[i := unit];
    if i == last {
      assert other[..last] == text[..last];
      assert HashOf(text) == Mixed(HashOf(text[..last]), text[last]);
      assert HashOf(other) == Mixed(HashOf(text[..last]), unit);
      if HashOf(text) == HashOf(other) {
        MixedApart(HashOf(text[..last]), HashOf(text[..last]), text[last], unit);
      }
    } else {
      assert other[..last] == text[..last][i := unit];
      OneUnitApart(text[..last], i, unit);
      assert HashOf(text) == Mixed(HashOf(text[..last]), text[last]);
      assert HashOf(other) == Mixed(HashOf(other[..last]), text[last]);
      if HashOf(text) == HashOf(other) {
        MixedApart(HashOf(text[..last]), HashOf(other[..last]), text[last], text[last]);
      }
    }
  }

  /** Published values of FNV-1a: the hash of no text, of `a` and of `ab`. */
  lemma HashVectors()
    ensures HashOf([]) == 0x811c9dc5 && HashOf([0x61]) == 0xe40c292c && HashOf([0x61, 0x62]) == 0x4d2505ca
  {
    var a, ab: seq<Unit> := [0x61], [0x61, 0x62];
    assert a[..0] == [] && ab[..1] == a;
    assert HashOf(a) == Mixed(OFFSET, 0x61);
    assert HashOf(ab) == Mixed(HashOf(a), 0x62);
  }

  method StableSeed(text: seq<Unit>) returns (seed: Word)
    ensures seed == SeedOf(text)
  {
    hide Mixed;
    var hash := OFFSET;
    for index := 0 to |text|
      invariant hash == HashOf(text[..index])
    {
      assert text[..index + 1][..index] == text[..index];
      hash := Mixed(hash, text[index]);
    }
    assert text[..|text|] == text;
    seed := if hash == 0 then FALLBACK else hash;
  }

  // ---------- The global functions ----------

  /** What a global property holds: nothing of its own, some own function, or the dispatcher. */
  datatype Property = Absent | Own(id: nat) | Dispatcher

  /** A materialisation: its generator, the words it has drawn, and whether it is under way. */
  datatype Run = Run(text: seq<Unit>, state: Word, drawn: seq<Word>, live: bool)

  datatype Globals = Globals(random: Property, getRandomValues: Property)

  datatype State = State(globals: Globals, active: nat, restore: Option<Globals>, runs: seq<Run>)

  /**
   * `Enter`: a call; `installable` is false where the second property cannot be redefined.
   * `Draw`: one word for the run whose context the caller is in, while the dispatchers are
   * installed; a task that its run left behind may still draw. `Leave`: the `finally` block, after
   * success or failure alike.
   */
  datatype Step = Enter(text: seq<Unit>, installable: bool) | Draw(id: nat) | Leave(id: nat, failed: bool)

  predicate Enabled(s: State, step: Step) {
    match step
    case Enter(_, _) => true
    case Draw(id) => id < |s.runs| && s.active > 0
    case Leave(id, _) => id < |s.runs| && s.runs[id].live && s.active > 0
  }

  function Apply(s: State, step: Step): State
    requires Enabled(s, step)
  {
    match step
    case Enter(text, installable) =>
      if s.active == 0 && !installable then s
      else
        var installed :=
          if s.active == 0 then
            s.(globals := Globals(Dispatcher, Dispatcher), restore := Some(s.globals))
          else s;
        installed.(active := s.active + 1, runs := s.runs + [Run(text, SeedOf(text), [], true)])
    case Draw(id) =>
      var run := s.runs[id];
      var word := Next(run.state);
      s.(runs := s.runs[id := run.(state := word, drawn := run.drawn + [word])])
    case Leave(id, _) =>
      var left := s.(active := s.active - 1, runs := s.runs[id := s.runs[id].(live := false)]);
      if left.active > 0 then left
      else left.(globals := if s.restore.Some? then s.restore.value else s.globals, restore := None)
  }

  predicate Runs(s: State, steps: seq<Step>)
    decreases |steps|
  {
    steps == [] || (Enabled(s, steps[0]) && Runs(Apply(s, steps[0]), steps[1..]))
  }

  function After(s: State, steps: seq<Step>): State
    requires Runs(s, steps)
    decreases |steps|
  {
    if steps == [] then s else After(Apply(s, steps[0]), steps[1..])
  }

  function Idle(globals: Globals): State {
    State(globals, 0, None, [])
  }

  /** How many materialisations are under way. */
  function Live(runs: seq<Run>): nat {
    if runs == [] then 0 else (if runs[0].live then 1 else 0) + Live(runs[1..])
  }

  lemma {:induction false} LivePut(runs: seq<Run>, id: nat, run: Run)
    requires id < |runs|
    ensures Live(runs[id := run]) + (if runs[id].live then 1 else 0)
            == Live(runs) + (if run.live then 1 else 0)
  {
    if id > 0 {
      LivePut(runs[1..], id - 1, run);
      assert runs[id := run][1..] == runs[1..][id - 1 := run];
    }
  }

  lemma {:induction false} LiveAdd(runs: seq<Run>, run: Run)
    ensures Live(runs + [run]) == Live(runs) + (if run.live then 1 else 0)
  {
    if runs == [] {
      assert [run][1..] == [];
    } else {
      LiveAdd(runs[1..], run);
      assert (runs + [run])[1..] == runs[1..] + [run];
    }
  }

  /** The run has drawn the stream of its own text, whatever the others did. */
  predicate OnStream(run: Run) {
    && run.state == Iterate(SeedOf(run.text), |run.drawn|)
    && run.drawn == Stream(SeedOf(run.text), |run.drawn|)
  }

  ghost predicate Inv(globals: Globals, s: State) {
    && s.active == Live(s.runs)
    && (if s.active > 0 then s.globals == Globals(Dispatcher, Dispatcher) && s.restore == Some(globals)
        else s.globals == globals && s.restore.None?)
    && forall i | 0 <= i < |s.runs| :: OnStream(s.runs[i])
  }

  lemma StepKeepsInv(globals: Globals, s: State, step: Step)
    requires Inv(globals, s) && Enabled(s, step)
    ensures Inv(globals, Apply(s, step))
  {
    hide Next, SeedOf;
    var t := Apply(s, step);
    match step {
      case Enter(text, _) =>
        LiveAdd(s.runs, Run(text, SeedOf(text), [], true));
      case Draw(id) =>
        LivePut(s.runs, id, t.runs[id]);
        assert OnStream(s.runs[id]);
      case Leave(id, _) =>
        LivePut(s.runs, id, t.runs[id]);
        assert OnStream(s.runs[id]);
    }
  }

  lemma {:induction false} InvAlways(globals: Globals, s: State, steps: seq<Step>)
    requires Inv(globals, s) && Runs(s, steps)
    ensures Inv(globals, After(s, steps))
    decreases |steps|
  {
    hide Inv, Apply;
    if steps != [] {
      StepKeepsInv(globals, s, steps[0]);
      InvAlways(globals, Apply(s, steps[0]), steps[1..]);
    }
  }

  lemma {:induction false} LiveIsSome(runs: seq<Run>)
    ensures Live(runs) > 0 <==> exists i :: 0 <= i < |runs| && runs[i].live
  {
    if runs != [] {
      LiveIsSome(runs[1..]);
      if exists i :: 0 <= i < |runs| && runs[i].live {
        var i :| 0 <= i < |runs| && runs[i].live;
        if i > 0 {
          assert runs[1..][i - 1].live;
        }
      }
    }
  }

  /**
   * Over every interleaving, with failures: the global functions are the dispatchers exactly
   * while a materialisation is under way, and what they were at first otherwise.
   */
  lemma GlobalsAreRestored(globals: Globals, steps: seq<Step>)
    requires Runs(Idle(globals), steps)
    ensures
      var s := After(Idle(globals), steps);
      s.globals == if exists i :: 0 <= i < |s.runs| && s.runs[i].live
                   then Globals(Dispatcher, Dispatcher) else globals
  {
    InvAlways(globals, Idle(globals), steps);
    LiveIsSome(After(Idle(globals), steps).runs);
    hide Apply;
  }

  /**
   * A materialisation starts, with a generator of its own text, unless it is the first one and the
   * dispatchers cannot be installed; then nothing has changed.
   */
  lemma StartsExactly(s: State, text: seq<Unit>, installable: bool)
    ensures
      var t := Apply(s, Enter(text, installable));
      if s.active > 0 || installable
      then t.runs == s.runs + [Run(text, SeedOf(text), [], true)] && t.active == s.active + 1
      else t == s
  {
    hide SeedOf;
  }

  /** What a run draws is a function of its own text and the number of draws alone. */
  lemma StreamsAreIndependent(globals: Globals, steps: seq<Step>, id: nat)
    requires Runs(Idle(globals), steps) && id < |After(Idle(globals), steps).runs|
    ensures
      var run := After(Idle(globals), steps).runs[id];
      && run.drawn == Stream(SeedOf(run.text), |run.drawn|)
      && forall i | 0 <= i < |run.drawn| :: run.drawn[i] != 0 && 0.0 < Quotient(run.drawn[i]) < 1.0
  {
    hide Apply, Quotient;
    InvAlways(globals, Idle(globals), steps);
    var run := After(Idle(globals), steps).runs[id];
    assert OnStream(run);
    StreamIsNotZero(SeedOf(run.text), |run.drawn|);
    forall i | 0 <= i < |run.drawn| ensures 0.0 < Quotient(run.drawn[i]) < 1.0 {
      QuotientIsBelowOne(run.drawn[i]);
    }
  }

  // ---------- The module state ----------

  class Dispatch {
    ghost const original: Globals
    var globals: Globals
    var activeRandomContexts: nat
    var restoreRandom: Option<Globals>
    var runs: seq<Run>

    function View(): State
      reads this
    {
      State(globals, activeRandomContexts, restoreRandom, runs)
    }

    ghost predicate Valid()
      reads this
    {
      Inv(original, View())
    }

    constructor (globals: Globals)
      ensures Valid() && View() == Idle(globals) && original == globals
    {
      original, this.globals := globals, globals;
      activeRandomContexts, restoreRandom, runs := 0, None, [];
    }

    /** `withDeterministicRandom` up to the operation. */
    method Begin(text: seq<Unit>, installable: bool) returns (id: Option<nat>)
      requires Valid()
      modifies this
      ensures Valid() && View() == Apply(old(View()), Enter(text, installable))
      ensures id.None? <==> old(activeRandomContexts) == 0 && !installable
      ensures id.Some? ==> id.value == |old(runs)|
    {
      StepKeepsInv(original, View(), Enter(text, installable));
      hide Inv, SeedOf;
      if activeRandomContexts == 0 {
        if !installable {
          return None;
        }
        restoreRandom := Some(globals);
        globals := Globals(Dispatcher, Dispatcher);
      }
      activeRandomContexts := activeRandomContexts + 1;
      var seed := StableSeed(text);
      id := Some(|runs|);
      runs := runs + [Run(text, seed, [], true)];
    }

    /** The `finally` block. */
    method End(id: nat, failed: bool)
      requires Valid() && Enabled(View(), Leave(id, failed))
      modifies this
      ensures Valid() && View() == Apply(old(View()), Leave(id, failed))
    {
      StepKeepsInv(original, View(), Leave(id, failed));
      hide Inv;
      activeRandomContexts := activeRandomContexts - 1;
      runs := runs[id := runs[id].(live := false)];
      if activeRandomContexts == 0 {
        if restoreRandom.Some? {
          globals := restoreRandom.value;
        }
        restoreRandom := None;
      }
    }

    /** `nextUint32` of the run in whose context the caller is. */
    method NextUint32(id: nat) returns (word: Word)
      requires Valid() && Enabled(View(), Draw(id))
      modifies this`runs
      ensures Valid() && View() == Apply(old(View()), Draw(id))
      ensures word == Iterate(SeedOf(runs[id].text), |runs[id].drawn|)
      ensures word == runs[id].state && Enabled(View(), Draw(id))
    {
      assert OnStream(runs[id]);
      StepKeepsInv(original, View(), Draw(id));
      hide Inv, Next, SeedOf;
      word := Next(runs[id].state);
      runs := runs[id := runs[id].(state := word, drawn := runs[id].drawn + [word])];
    }

    /** The dispatching `getRandomValues` fills the view in place, a word for each byte. */
    method GetRandomValues(id: nat, bytes: array<bv8>)
      requires Valid() && Enabled(View(), Draw(id))
      modifies this`runs, bytes
      ensures Valid() && Enabled(View(), Draw(id)) && runs[id].text == old(runs[id].text)
      ensures |runs[id].drawn| == |old(runs[id].drawn)| + bytes.Length
      ensures forall k | 0 <= k < bytes.Length ::
                bytes[k] == LowByte(Iterate(SeedOf(runs[id].text), |old(runs[id].drawn)| + k + 1))
      ensures |runs| == |old(runs)| && forall i | 0 <= i < |runs| && i != id :: runs[i] == old(runs[i])
    {
      hide Inv, Next, SeedOf, Iterate, LowByte;
      ghost var first := |runs[id].drawn|;
      for index := 0 to bytes.Length
        invariant Valid() && Enabled(View(), Draw(id)) && runs[id].text == old(runs[id].text)
        invariant |runs[id].drawn| == first + index
        invariant forall k | 0 <= k < index ::
          bytes[k] == LowByte(Iterate(SeedOf(runs[id].text), first + k + 1))
        invariant |runs| == |old(runs)| && forall i | 0 <= i < |runs| && i != id :: runs[i] == old(runs[i])
      {
        var word := NextUint32(id);
        bytes[index] := LowByte(word);
      }
    }
  }
}
