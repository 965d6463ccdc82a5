// The session count of each key: registrations and ended sessions against the
// counters of the rate limiter.
module SessionCounts {
  import opened Options

  type Key = string
  type SessionId = nat

  // `counted`: between add_agent and remove_agent.
  datatype Session = Session(key: Key, counted: bool)

  datatype State = State(
    sessions: map<SessionId, Session>,
    counts: map<Key, int>,        // agent_count of every key with a usage entry
    inserting: set<Key>)          // get_or_create calls that have seen no entry

  datatype Step =
    | Register(s: SessionId, key: Key)
    | RemoveAgent(s: SessionId)
    | EnsureUsage(key: Key)                  // get_or_create with no interference
    | InsertBegin(key: Key)                  // get_or_create sees no entry ...
    | InsertEnd(key: Key)                    // ... and inserts a zero one

  const INITIAL := State(map[], map[], {})

  function CountOf(st: State, key: Key): int {
    if key in st.counts then st.counts[key] else 0
  }

  function RegisterStep(st: State, s: SessionId, key: Key): State {
    if s in st.sessions then st
    else st.(counts := if key == "" then st.counts else st.counts[key := CountOf(st, key) + 1],
             sessions := st.sessions[s := Session(key, key != "")])
  }

  function RemoveAgentStep(st: State, s: SessionId): State {
    if s !in st.sessions || !st.sessions[s].counted then st
    else
      var key := st.sessions[s].key;
      st.(sessions := st.sessions[s := st.sessions[s].(counted := false)],
          counts := if CountOf(st, key) > 0 then st.counts[key := CountOf(st, key) - 1] else st.counts)
  }

  function Next(st: State, step: Step): State {
    match step
    case Register(s, key) => RegisterStep(st, s, key)
    case RemoveAgent(s) => RemoveAgentStep(st, s)
    case EnsureUsage(key) => if key in st.counts then st else st.(counts := st.counts[key := 0])
    case InsertBegin(key) => if key in st.counts then st else st.(inserting := st.inserting + {key})
    case InsertEnd(key) =>
      if key !in st.inserting then st
      else st.(inserting := st.inserting - {key}, counts := st.counts[key := 0])
  }

  function Run(st: State, steps: seq<Step>): State
    decreases |steps|
  {
    if steps == [] then st else Run(Next(st, steps[0]), steps[1..])
  }

  // --- what changes what ---

  predicate Counted(st: State, s: SessionId) {
    s in st.sessions && st.sessions[s].counted
  }

  // A session with a key counts from its registration until it is given back.
  lemma SessionChanges(st: State, step: Step, s: SessionId)
    ensures var after := Next(st, step);
            && (s in after.sessions <==> s in st.sessions || (step.Register? && step.s == s))
            && (s in st.sessions ==> after.sessions[s].key == st.sessions[s].key)
            && (step.Register? && step.s == s && s !in st.sessions ==> after.sessions[s].key == step.key)
            && (Counted(after, s) <==>
                  || (step.Register? && step.s == s && s !in st.sessions && step.key != "")
                  || (Counted(st, s) && step != RemoveAgent(s)))
  {}

  // A key's count goes up by one with a registration, down by one with a session
  // given back, and is set to zero by a delayed insertion; by nothing else.
  lemma CountChanges(st: State, step: Step, key: Key)
    ensures var after := Next(st, step);
            var registered := step.Register? && step.key == key && key != "" && step.s !in st.sessions;
            var givenBack := step.RemoveAgent? && Counted(st, step.s) && st.sessions[step.s].key == key && CountOf(st, key) > 0;
            var replaced := step == InsertEnd(key) && key in st.inserting;
            CountOf(after, key) == if replaced then 0
                                   else CountOf(st, key) + (if registered then 1 else 0) - (if givenBack then 1 else 0)
  {}

  // An entry appears with the first use of the key; an insertion is delayed when it
  // saw none, and happens once.
  lemma EntryChanges(st: State, step: Step, key: Key)
    ensures var after := Next(st, step);
            && (key in after.counts <==>
                  || key in st.counts || step == EnsureUsage(key) || (step == InsertEnd(key) && key in st.inserting)
                  || (step.Register? && step.key == key && key != "" && step.s !in st.sessions)
                  || (step.RemoveAgent? && Counted(st, step.s) && st.sessions[step.s].key == key && CountOf(st, key) > 0))
            && (key in after.inserting <==>
                  || (step == InsertBegin(key) && key !in st.counts)
                  || (key in st.inserting && step != InsertEnd(key)))
  {}

  lemma Run3(st: State, a: Step, b: Step, c: Step)
    ensures Run(st, [a, b, c]) == Next(Next(Next(st, a), b), c)
  {
    assert [a, b, c][1..] == [b, c] && [b, c][1..] == [c] && [c][1..] == [];
    assert Run(Next(st, a), [b, c]) == Run(Next(Next(st, a), b), [c]);
  }

  function CountedFor(st: State, key: Key): set<SessionId> {
    set s | s in st.sessions && st.sessions[s].key == key && st.sessions[s].counted
  }

  ghost predicate CountsExact(st: State, key: Key) {
    && CountOf(st, key) == |CountedFor(st, key)|
    && (forall s :: s in st.sessions && st.sessions[s].counted ==> st.sessions[s].key != "")
  }

  lemma RegisterKeepsCounts(st: State, step: Step, key: Key)
    requires CountsExact(st, key) && step.Register? && step.s !in st.sessions
    ensures CountsExact(Next(st, step), key)
  {
    var after := Next(st, step);
    if after != st {
      if step.key == key && key != "" {
        assert CountedFor(after, key) == CountedFor(st, key) + {step.s};
      } else {
        assert CountedFor(after, key) == CountedFor(st, key);
      }
    }
  }

  lemma RemoveKeepsCounts(st: State, s: SessionId, key: Key)
    requires CountsExact(st, key)
    ensures CountsExact(RemoveAgentStep(st, s), key)
    ensures s in st.sessions && st.sessions[s].counted && st.sessions[s].key == key ==> CountOf(st, key) > 0
  {
    var after := RemoveAgentStep(st, s);
    if s in st.sessions && st.sessions[s].counted && st.sessions[s].key == key {
      assert s in CountedFor(st, key);
      assert CountedFor(after, key) == CountedFor(st, key) - {s};
    } else {
      assert CountedFor(after, key) == CountedFor(st, key);
    }
  }

  lemma NextKeepsCounts(st: State, step: Step, key: Key)
    requires CountsExact(st, key) && !step.InsertEnd?
    ensures CountsExact(Next(st, step), key)
  {
    if step.Register? && step.s !in st.sessions {
      RegisterKeepsCounts(st, step, key);
    } else if step.RemoveAgent? {
      RemoveKeepsCounts(st, step.s, key);
    } else {
      assert CountedFor(Next(st, step), key) == CountedFor(st, key);
    }
  }

  // Entry creation is atomic when no insertion is left half done.
  predicate CreationAtomic(steps: seq<Step>) {
    forall i :: 0 <= i < |steps| ==> !steps[i].InsertEnd?
  }

  lemma {:induction false} CountsAreConserved(st: State, steps: seq<Step>, key: Key)
    requires CountsExact(st, key) && CreationAtomic(steps)
    ensures CountsExact(Run(st, steps), key)
    decreases |steps|
  {
    if steps != [] {
      NextKeepsCounts(st, steps[0], key);
      CountsAreConserved(Next(st, steps[0]), steps[1..], key);
    }
  }

  // So the zero guard of remove_agent never fires: whenever a session's count
  // is given back, the counter is positive.
  lemma ZeroGuardNeverFires(steps: seq<Step>, s: SessionId)
    requires CreationAtomic(steps)
    requires var st := Run(INITIAL, steps); s in st.sessions && st.sessions[s].counted
    ensures var st := Run(INITIAL, steps); CountOf(st, st.sessions[s].key) > 0
  {
    var st := Run(INITIAL, steps);
    var key := st.sessions[s].key;
    assert CountedFor(INITIAL, key) == {};
    CountsAreConserved(INITIAL, steps, key);
    RemoveKeepsCounts(st, s, key);
  }

  // The delayed insertion of get_or_create replaces an entry made meanwhile; the
  // count stays exact exactly when no session of the key is counted.
  lemma DelayedInsertExactly(st: State, key: Key)
    requires CountsExact(st, key) && key in st.inserting
    ensures CountsExact(Next(st, InsertEnd(key)), key) <==> CountedFor(st, key) == {}
  {
    assert CountedFor(Next(st, InsertEnd(key)), key) == CountedFor(st, key);
  }

  // It can lose a session: another registration slips in before the insertion.
  lemma DelayedInsertLosesSession()
    ensures !CountsExact(Run(INITIAL, [InsertBegin("k"), Register(1, "k"), InsertEnd("k")]), "k")
  {
    var begun := Next(INITIAL, InsertBegin("k"));
    var registered := Next(begun, Register(1, "k"));
    Run3(INITIAL, InsertBegin("k"), Register(1, "k"), InsertEnd("k"));
    assert CountedFor(begun, "k") == {};
    RegisterKeepsCounts(begun, Register(1, "k"), "k");
    assert 1 in CountedFor(registered, "k");
    DelayedInsertExactly(registered, "k");
  }
}
