/** The compatibility secret store: a vault over the older key-value files
    (packages/keys/src/key-manager-compat.ts). */
module SecretStore {
  import opened Sequences

  type Table = map<string, string>

  datatype State = State(vault: Table, legacy: Table)

  datatype Op = Get(key: string) | Set(key: string, value: string) | Delete(key: string)

  /** Which of an operation's vault calls fails for a reason other than a missing key. */
  datatype Fault = NoFault | FirstCall | SecondCall

  datatype Answer = Found(value: string) | Done | NotFound | Failed

  /** What a reader of the store sees: the vault over the files. */
  function Visible(s: State): Table {
    s.legacy + s.vault
  }

  function Step(s: State, op: Op, fault: Fault): (State, Answer) {
    if fault == FirstCall then (s, Failed)
    else
      match op
      case Get(key) =>
        if key in s.vault then (s, Found(s.vault[key]))
        else if key !in s.legacy then (s, NotFound)
        else if fault == SecondCall then (s, Failed)
        else (State(s.vault[key := s.legacy[key]], s.legacy - {key}), Found(s.legacy[key]))
      case Set(key, value) => (State(s.vault[key := value], s.legacy - {key}), Done)
      case Delete(key) =>
        if key in s.vault then (State(s.vault - {key}, s.legacy - {key}), Done)
        else if key in s.legacy then (State(s.vault, s.legacy - {key}), Done)
        else (s, NotFound)
  }

  /** The same operation on one plain map. */
  function PlainStep(m: Table, op: Op): (Table, Answer) {
    match op
    case Get(key) => (m, if key in m then Found(m[key]) else NotFound)
    case Set(key, value) => (m[key := value], Done)
    case Delete(key) => if key in m then (m - {key}, Done) else (m, NotFound)
  }

  class Store {
    var vault: Table
    var legacy: Table

    ghost function Track(): State
      reads this
    {
      State(vault, legacy)
    }

    constructor (vault: Table, legacy: Table)
      ensures Track() == State(vault, legacy)
    {
      this.vault, this.legacy := vault, legacy;
    }

    method GetSecret(key: string, fault: Fault) returns (r: Answer)
      modifies this
      ensures (Track(), r) == Step(old(Track()), Get(key), fault)
    {
      if fault == FirstCall { return Failed; }
      if key in vault { return Found(vault[key]); }
      if key !in legacy { return NotFound; }
      var value := legacy[key];
      if fault == SecondCall { return Failed; }
      vault := vault[key := value];
      legacy := legacy - {key};
      r := Found(value);
    }

    method SetSecret(key: string, value: string, fault: Fault) returns (r: Answer)
      modifies this
      ensures (Track(), r) == Step(old(Track()), Set(key, value), fault)
    {
      if fault == FirstCall { return Failed; }
      vault := vault[key := value];
      legacy := legacy - {key};
      r := Done;
    }

    method DeleteSecret(key: string, fault: Fault) returns (r: Answer)
      modifies this
      ensures (Track(), r) == Step(old(Track()), Delete(key), fault)
    {
      if fault == FirstCall { return Failed; }
      var hadLegacy := key in legacy;
      if key in vault {
        vault := vault - {key};
        if hadLegacy { legacy := legacy - {key}; }
        assert legacy == old(legacy) - {key};
        return Done;
      }
      if hadLegacy {
        legacy := legacy - {key};
        return Done;
      }
      r := NotFound;
    }

    /** `vaultKeys` and `legacyKeys` enumerate the two tiers in whatever order each keeps. */
    method ListSecrets(vaultKeys: seq<string>, legacyKeys: seq<string>) returns (keys: seq<string>)
      requires forall k :: k in vaultKeys <==> k in vault
      requires forall k :: k in legacyKeys <==> k in legacy
      ensures NoDup(keys) && forall k :: k in keys <==> k in Visible(Track())
    {
      keys := Dedup(vaultKeys + legacyKeys);
      DedupMembers(vaultKeys + legacyKeys);
      DedupNoDup(vaultKeys + legacyKeys);
    }
  }

  /** Each operation either fails and leaves the visible map alone, or answers and changes it as one
      plain map would; without a fault it never fails. */
  lemma StepRefines(s: State, op: Op, fault: Fault)
    ensures var (t, r) := Step(s, op, fault);
            if r == Failed then fault != NoFault && Visible(t) == Visible(s)
            else (Visible(t), r) == PlainStep(Visible(s), op)
  {
    if fault != FirstCall {
      match op
      case Get(key) => MigrationIsInvisible(s, key);
      case Set(key, value) => SetIsVisible(s, key, value);
      case Delete(key) => DeleteIsVisible(s, key);
    }
  }

  lemma MigrationIsInvisible(s: State, key: string)
    ensures key in s.vault ==> key in Visible(s) && Visible(s)[key] == s.vault[key]
    ensures key !in s.vault && key !in s.legacy ==> key !in Visible(s)
    ensures key !in s.vault && key in s.legacy ==>
              && key in Visible(s) && Visible(s)[key] == s.legacy[key]
              && Visible(State(s.vault[key := s.legacy[key]], s.legacy - {key})) == Visible(s)
  {
  }

  lemma SetIsVisible(s: State, key: string, value: string)
    ensures Visible(State(s.vault[key := value], s.legacy - {key})) == Visible(s)[key := value]
  {
  }

  lemma DeleteIsVisible(s: State, key: string)
    ensures key in Visible(s) <==> key in s.vault || key in s.legacy
    ensures Visible(State(s.vault - {key}, s.legacy - {key})) == Visible(s) - {key}
    ensures key !in s.vault ==> Visible(State(s.vault, s.legacy - {key})) == Visible(s) - {key}
  {
  }

  /** The answers of a run, and the state after it. */
  function Run(s: State, calls: seq<(Op, Fault)>): (State, seq<Answer>) {
    if calls == [] then (s, [])
    else
      var n := |calls| - 1;
      var (earlier, answers) := Run(s, calls[..n]);
      var (t, r) := Step(earlier, calls[n].0, calls[n].1);
      (t, answers + [r])
  }

  /** The plain map over the same run, skipping the operations that failed. */
  function PlainRun(m: Table, calls: seq<(Op, Fault)>, answers: seq<Answer>): (Table, seq<Answer>)
    requires |answers| == |calls|
  {
    if calls == [] then (m, [])
    else
      var n := |calls| - 1;
      var (earlier, plain) := PlainRun(m, calls[..n], answers[..n]);
      if answers[n] == Failed then (earlier, plain + [Failed])
      else
        var (t, r) := PlainStep(earlier, calls[n].0);
        (t, plain + [r])
  }

  /** Over any run the two tiers answer exactly as one plain map that starts with what was visible;
      migration is never observed, and no call fails without a fault. */
  lemma {:induction false} ActsAsOneMap(s: State, calls: seq<(Op, Fault)>)
    ensures |Run(s, calls).1| == |calls|
    ensures var (t, answers) := Run(s, calls); PlainRun(Visible(s), calls, answers) == (Visible(t), answers)
    ensures forall i | 0 <= i < |calls| && calls[i].1 == NoFault :: Run(s, calls).1[i] != Failed
  {
    if calls != [] {
      hide Run, PlainRun, Step, PlainStep, Visible;
      var n := |calls| - 1;
      var (earlier, answers) := Run(s, calls[..n]);
      var r := Step(earlier, calls[n].0, calls[n].1).1;
      ActsAsOneMap(s, calls[..n]);
      RunSnoc(s, calls);
      PlainSnoc(Visible(s), calls, answers, r);
      StepRefines(earlier, calls[n].0, calls[n].1);
      NoFailureSnoc(calls, answers, r);
    }
  }

  lemma NoFailureSnoc(calls: seq<(Op, Fault)>, answers: seq<Answer>, r: Answer)
    requires |answers| == |calls| - 1
    requires forall i | 0 <= i < |answers| && calls[..|answers|][i].1 == NoFault :: answers[i] != Failed
    requires calls[|answers|].1 == NoFault ==> r != Failed
    ensures forall i | 0 <= i < |calls| && calls[i].1 == NoFault :: (answers + [r])[i] != Failed
  {
    forall i | 0 <= i < |answers| ensures calls[..|answers|][i] == calls[i] {}
  }

  lemma RunSnoc(s: State, calls: seq<(Op, Fault)>)
    requires calls != []
    ensures var n := |calls| - 1;
            var (earlier, answers) := Run(s, calls[..n]);
            var (t, r) := Step(earlier, calls[n].0, calls[n].1);
            Run(s, calls) == (t, answers + [r])
  {
    hide Step;
  }

  lemma PlainSnoc(m: Table, calls: seq<(Op, Fault)>, answers: seq<Answer>, r: Answer)
    requires calls != [] && |answers| == |calls| - 1
    ensures var n := |calls| - 1;
            var (earlier, plain) := PlainRun(m, calls[..n], answers);
            PlainRun(m, calls, answers + [r]) ==
            if r == Failed then (earlier, plain + [Failed])
            else (PlainStep(earlier, calls[n].0).0, plain + [PlainStep(earlier, calls[n].0).1])
  {
    hide PlainStep;
    assert (answers + [r])[..|calls| - 1] == answers;
  }
}
