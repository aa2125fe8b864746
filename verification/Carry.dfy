/** The bounded text a run carries over from the earlier runs of its session. */
module Carry {
  import opened Prelude

  datatype Verification = Verification(argv: seq<string>, cwd: string, exitCode: Option<int>)

  /** A finished run: facts recorded by the program, and the model's own account. */
  datatype RunRecord = RunRecord(
    facts: string, verification: Option<Verification>,
    summary: string, limitations: seq<string>, blockedReason: string)
  {
    predicate HasAccount() {
      summary != "" || limitations != [] || blockedReason != ""
    }

    function WithoutAccount(): RunRecord {
      this.(summary := "", limitations := [], blockedReason := "")
    }
  }

  /** Renders records and the number of dropped ones; measures text in bytes. */
  datatype Renderer = Renderer(render: (seq<RunRecord>, nat) -> string, bytes: string -> nat)

  datatype SessionCarry = SessionCarry(
    text: string, carriedRuns: nat, droppedRuns: nat, carriedAccounts: nat, limitBytes: nat,
    priorVerification: Option<Verification>)

  /** A record has an account exactly when there is something to take away, and taking it
      away leaves the facts and the verification. */
  lemma AccountExactly(record: RunRecord)
    ensures record.HasAccount() <==> record != record.WithoutAccount()
    ensures record.WithoutAccount() == RunRecord(record.facts, record.verification, "", [], "")
  {
  }

  /** How far the trimming went: how many runs are gone, and whether the oldest run left
      lost its account. */
  datatype Stage = Stage(dropped: nat, bare: bool)

  function Kept(runs: seq<RunRecord>, s: Stage): seq<RunRecord>
    requires s.dropped <= |runs|
  {
    if s.dropped == |runs| then []
    else [if s.bare then runs[s.dropped].WithoutAccount() else runs[s.dropped]] + runs[s.dropped + 1..]
  }

  function TextAt(r: Renderer, runs: seq<RunRecord>, s: Stage): string
    requires s.dropped <= |runs|
  {
    if Kept(runs, s) == [] then "" else r.render(Kept(runs, s), s.dropped)
  }

  /** The order of trimming: earlier stages drop fewer runs, and an account goes before
      its run. */
  predicate Before(runs: seq<RunRecord>, a: Stage, b: Stage) {
    a.dropped < b.dropped || (a.dropped == b.dropped && !a.bare && b.bare)
  }

  /** A stage the trimming can pass through: only a run with an account can be bare. */
  predicate Reachable(runs: seq<RunRecord>, s: Stage) {
    s.dropped <= |runs| && (s.bare ==> s.dropped < |runs| && runs[s.dropped].HasAccount())
  }

  /** Of two stages one comes before the other. */
  lemma StagesInOrder(runs: seq<RunRecord>, a: Stage, b: Stage)
    ensures a == b || Before(runs, a, b) || Before(runs, b, a)
    ensures Before(runs, a, b) ==> a != b && !Before(runs, b, a) && a.dropped <= b.dropped
  {
  }

  predicate Fits(r: Renderer, text: string, limit: nat) {
    r.bytes(text) <= limit
  }

  /** Every stage before this one has a text that does not fit. */
  ghost predicate NoneEarlierFits(r: Renderer, runs: seq<RunRecord>, limit: nat, s: Stage) {
    forall e: Stage :: Reachable(runs, e) && Before(runs, e, s) ==> r.bytes(TextAt(r, runs, e)) > limit
  }

  function Accounts(records: seq<RunRecord>): nat {
    if records == [] then 0
    else Accounts(records[..|records| - 1]) + if records[|records| - 1].HasAccount() then 1 else 0
  }

  predicate IsLatestVerification(records: seq<RunRecord>, v: Option<Verification>) {
    match v
    case None => forall i :: 0 <= i < |records| ==> records[i].verification == None
    case Some(_) =>
      exists i :: 0 <= i < |records| && records[i].verification == v &&
        forall j :: i < j < |records| ==> records[j].verification == None
  }

  method LatestVerification(records: seq<RunRecord>) returns (v: Option<Verification>)
    ensures IsLatestVerification(records, v)
  {
    for i := |records| downto 0
      invariant forall j :: i <= j < |records| ==> records[j].verification == None
    {
      if records[i].verification.Some? {
        return records[i].verification;
      }
    }
    v := None;
  }

  function CarryLimit(contextBudgetBytes: nat, ratio: real): (limit: nat)
    requires contextBudgetBytes >= 1 && 0.0 < ratio <= 1.0
    ensures 1 <= limit <= contextBudgetBytes
    ensures WholePart(limit, contextBudgetBytes, ratio)
  {
    assert (contextBudgetBytes as real) * ratio <= contextBudgetBytes as real;
    Max(1, ((contextBudgetBytes as real) * ratio).Floor)
  }

  method CountAccounts(records: seq<RunRecord>) returns (accounts: nat)
    ensures accounts == Accounts(records)
  {
    accounts := 0;
    for i := 0 to |records|
      invariant accounts == Accounts(records[..i])
    {
      assert records[..i + 1][..i] == records[..i];
      accounts := accounts + if records[i].HasAccount() then 1 else 0;
    }
    assert records[..|records|] == records;
  }

  /** Trim the oldest run's account, then the oldest run, until the text fits. The first
      stage that fits is carried; the runs kept are the newest ones, unchanged but for the
      account of the oldest of them, and with none left the text is empty. */
  method BuildSessionCarry(r: Renderer, runs: seq<RunRecord>, contextBudgetBytes: nat, ratio: real)
    returns (carry: SessionCarry, stage: Stage)
    requires contextBudgetBytes >= 1 && 0.0 < ratio <= 1.0
    ensures 1 <= carry.limitBytes <= contextBudgetBytes
    ensures WholePart(carry.limitBytes, contextBudgetBytes, ratio)
    ensures Reachable(runs, stage)
    ensures carry.text == TextAt(r, runs, stage)
    ensures carry.droppedRuns == stage.dropped && carry.carriedRuns + carry.droppedRuns == |runs|
    ensures carry.carriedAccounts == Accounts(Kept(runs, stage))
    ensures IsLatestVerification(Kept(runs, stage), carry.priorVerification)
    ensures runs != [] ==> NoneEarlierFits(r, runs, carry.limitBytes, stage)
    ensures carry.carriedRuns > 0 ==> r.bytes(carry.text) <= carry.limitBytes
    ensures carry.carriedRuns == 0 ==> carry.text == ""
  {
    hide CarryLimit, Accounts, IsLatestVerification, NoneEarlierFits, WholePart;
    var limit := CarryLimit(contextBudgetBytes, ratio);
    var candidates := runs;
    stage := Stage(0, false);
    if candidates == [] {
      NothingToCarry(candidates);
      return SessionCarry("", 0, 0, 0, limit, None), stage;
    }
    assert [runs[0]] + runs[1..] == runs;
    NothingEarlier(r, runs, limit);
    var text := r.render(candidates, 0);
    while !Fits(r, text, limit) && candidates != []
      invariant Reachable(runs, stage) && candidates == Kept(runs, stage) && text == TextAt(r, runs, stage)
      invariant NoneEarlierFits(r, runs, limit, stage)
      decreases |candidates|, !stage.bare
    {
      var next: Stage;
      if candidates[0].HasAccount() {
        AfterBaring(runs, stage);
        candidates := candidates[0 := candidates[0].WithoutAccount()];
        next := stage.(bare := true);
      } else {
        candidates := candidates[1..];
        next := Stage(stage.dropped + 1, false);
        AfterDropping(runs, stage);
      }
      NextStage(r, runs, limit, stage, next);
      stage := next;
      text := if candidates == [] then "" else r.render(candidates, stage.dropped);
    }
    var accounts := CountAccounts(candidates);
    var v := LatestVerification(candidates);
    return SessionCarry(text, |candidates|, stage.dropped, accounts, limit, v), stage;
  }

  lemma NothingToCarry(records: seq<RunRecord>)
    requires records == []
    ensures Accounts(records) == 0 && IsLatestVerification(records, None)
  {
  }

  lemma NothingEarlier(r: Renderer, runs: seq<RunRecord>, limit: nat)
    ensures NoneEarlierFits(r, runs, limit, Stage(0, false))
  {
  }

  lemma AfterBaring(runs: seq<RunRecord>, s: Stage)
    requires Reachable(runs, s) && s.dropped < |runs| && Kept(runs, s)[0].HasAccount()
    ensures Kept(runs, s)[0 := Kept(runs, s)[0].WithoutAccount()] == Kept(runs, s.(bare := true))
  {
  }

  lemma AfterDropping(runs: seq<RunRecord>, s: Stage)
    requires s.dropped < |runs|
    ensures Kept(runs, s)[1..] == Kept(runs, Stage(s.dropped + 1, false))
  {
  }

  lemma NextStage(r: Renderer, runs: seq<RunRecord>, limit: nat, s: Stage, next: Stage)
    requires Reachable(runs, s) && s.dropped < |runs| && NoneEarlierFits(r, runs, limit, s)
    requires !Fits(r, TextAt(r, runs, s), limit)
    requires if Kept(runs, s)[0].HasAccount() then next == s.(bare := true) else next == Stage(s.dropped + 1, false)
    ensures Reachable(runs, next) && NoneEarlierFits(r, runs, limit, next)
  {
    forall e: Stage | Reachable(runs, e) && Before(runs, e, next) ensures r.bytes(TextAt(r, runs, e)) > limit {
      assert Before(runs, e, s) || e == s;
    }
  }
}
