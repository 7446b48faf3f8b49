/** The download queue (src/engine.rs) over the flags of the sessions (src/network.rs). */
module Queue {
  import opened Bytes
  import opened Sorting

  datatype TorrentState = Checking | Downloading | Seeding | Paused | Queued | Failed | Completed | FetchingMetadata

  /** What the queue reads and writes of a session. */
  datatype Session = Session(completed: nat, numPieces: nat, paused: bool, queuePaused: bool, started: bool,
          state: TorrentState)
  {
    predicate IsComplete() {
      numPieces > 0 && completed == numPieces
    }

    function Progress(): real {
      if numPieces == 0 then 0.0 else completed as real / numPieces as real
    }

    predicate UserPaused() {
      paused && !queuePaused
    }

    /** Takes part in the competition for download slots. */
    predicate Competes() {
      !IsComplete() && !UserPaused()
    }

    function AfterPause(): Session {
      this.(paused := true, state := if IsComplete() then Seeding else Paused)
    }

    function AfterResume(): Session {
      this.(paused := false, queuePaused := false, state := if IsComplete() then Seeding else Downloading)
    }

    function AfterUserPause(): Session {
      this.(queuePaused := false).AfterPause()
    }

    function AfterQueuePause(): Session {
      this.(queuePaused := true).AfterPause().(state := Queued)
    }

    function AfterSlot(active: bool): Session {
      if active then
        if !started then AfterResume().(started := true) else if queuePaused then AfterResume() else this
      else if !queuePaused then AfterQueuePause()
      else this
    }

    function AfterLift(): Session {
      if queuePaused then AfterResume().(started := true) else this
    }
  }

  class TorrentSession {
    const numPieces: nat
    var completed: nat
    var paused: bool
    var queuePaused: bool
    var started: bool
    var state: TorrentState

    function View(): Session
      reads this
    {
      Session(completed, numPieces, paused, queuePaused, started, state)
    }

    method Pause()
      modifies this
      ensures View() == old(View()).AfterPause()
      ensures paused && completed == old(completed) && queuePaused == old(queuePaused) && started == old(started)
      ensures state == if numPieces > 0 && completed == numPieces then Seeding else Paused
    {
      paused := true;
      state := if View().IsComplete() then Seeding else Paused;
    }

    method Resume()
      modifies this
      ensures View() == old(View()).AfterResume()
      ensures !paused && !queuePaused && completed == old(completed) && started == old(started)
      ensures state == if numPieces > 0 && completed == numPieces then Seeding else Downloading
    {
      paused := false;
      queuePaused := false;
      state := if View().IsComplete() then Seeding else Downloading;
    }

    method SetQueuePaused(v: bool)
      modifies this`queuePaused
      ensures View() == old(View()).(queuePaused := v)
    {
      queuePaused := v;
    }

    /** `spawn_start`; the workers it spawns set the flag. */
    method Start()
      modifies this`started
      ensures View() == old(View()).(started := true)
    {
      started := true;
    }
  }

  method PauseTorrent(s: TorrentSession)
    modifies s
    ensures s.View() == old(s.View()).AfterUserPause()
    ensures s.paused && !s.queuePaused && s.completed == old(s.completed) && s.started == old(s.started)
    ensures s.state == if s.numPieces > 0 && s.completed == s.numPieces then Seeding else Paused
  {
    s.SetQueuePaused(false);
    s.Pause();
  }

  method ResumeTorrent(s: TorrentSession)
    modifies s
    ensures s.View() == old(s.View()).AfterResume().(started := true)
    ensures !s.paused && !s.queuePaused && s.started && s.completed == old(s.completed)
    ensures s.state == if s.numPieces > 0 && s.completed == s.numPieces then Seeding else Downloading
  {
    s.Resume();
    s.Start();
  }

  method QueuePauseTorrent(s: TorrentSession)
    modifies s
    ensures s.View() == old(s.View()).AfterQueuePause()
    ensures s.paused && s.queuePaused && s.completed == old(s.completed) && s.started == old(s.started)
    ensures s.state == Queued
  {
    s.SetQueuePaused(true);
    s.Pause();
    s.state := Queued;
  }

  // ----- the ranking

  datatype Candidate = Candidate(position: nat, progress: real)

  /** The competing sessions in iteration order. */
  function Candidates(ts: seq<Session>): seq<Candidate> {
    if ts == [] then []
    else
      var n := |ts| - 1;
      Candidates(ts[..n]) + if ts[n].Competes() then [Candidate(n, ts[n].Progress())] else []
  }

  function MoreProgressed(): (Candidate, Candidate) -> bool {
    (a: Candidate, b: Candidate) => a.progress > b.progress
  }

  predicate Ahead(a: Candidate, b: Candidate) {
    a.progress > b.progress || (a.progress == b.progress && a.position < b.position)
  }

  function Ranking(ts: seq<Session>): seq<Candidate> {
    StableSort(Candidates(ts), MoreProgressed())
  }

  ghost predicate At(cs: seq<Candidate>, i: nat) {
    exists q :: 0 <= q < |cs| && cs[q].position == i
  }

  ghost predicate Chosen(ts: seq<Session>, k: nat, i: nat) {
    At(Ranking(ts)[..Min(k, |Ranking(ts)|)], i)
  }

  ghost function After(ts: seq<Session>, k: nat, i: nat): Session
    requires i < |ts|
  {
    var s := ts[i];
    if k == 0 then s.AfterLift()
    else if s.IsComplete() then if s.queuePaused then s.AfterResume() else s
    else if s.UserPaused() then s
    else s.AfterSlot(Chosen(ts, k, i))
  }

  ghost function Enforced(ts: seq<Session>, k: nat): (r: seq<Session>)
    ensures |r| == |ts| && forall i :: 0 <= i < |ts| ==> r[i] == After(ts, k, i)
  {
    seq(|ts|, i requires 0 <= i < |ts| => After(ts, k, i))
  }

  lemma {:induction false} CandidatesAre(ts: seq<Session>)
    ensures forall i, j :: 0 <= i < j < |Candidates(ts)| ==> Candidates(ts)[i].position < Candidates(ts)[j].position
    ensures forall c :: c in Candidates(ts) <==>
      c.position < |ts| && ts[c.position].Competes() && c.progress == ts[c.position].Progress()
  {
    if ts != [] {
      var n := |ts| - 1;
      CandidatesAre(ts[..n]);
      var cs := Candidates(ts[..n]);
      assert forall k :: 0 <= k < |cs| ==> cs[k] in cs && cs[k].position < n;
    }
  }

  ghost predicate IsRanking(ts: seq<Session>, r: seq<Candidate>) {
    && (forall i, j :: 0 <= i < j < |r| ==> Ahead(r[i], r[j]))
    && (forall i, j :: 0 <= i < j < |r| ==> r[i].position != r[j].position)
    && (forall c :: c in r <==>
          c.position < |ts| && ts[c.position].Competes() && c.progress == ts[c.position].Progress())
  }

  lemma RankingIs(ts: seq<Session>)
    ensures IsRanking(ts, Ranking(ts)) && |Ranking(ts)| == |Candidates(ts)|
  {
    CandidatesAre(ts);
    var ahead := (a: Candidate, b: Candidate) => Ahead(a, b);
    StableSortSorts(Candidates(ts), MoreProgressed(), ahead, (c: Candidate) => c.position as int);
    var r := Ranking(ts);
    forall i, j | 0 <= i < j < |r| ensures Ahead(r[i], r[j]) && r[i].position != r[j].position {
      assert ahead(r[i], r[j]);
      assert r[i] in r && r[j] in r;
    }
  }

  // ----- enforcement

  ghost predicate Distinct(sessions: seq<TorrentSession>) {
    forall i, j :: 0 <= i < j < |sessions| ==> sessions[i] != sessions[j]
  }

  function Views(sessions: seq<TorrentSession>): (r: seq<Session>)
    reads sessions
    ensures |r| == |sessions| && forall i :: 0 <= i < |r| ==> r[i] == sessions[i].View()
  {
    if sessions == [] then [] else Views(sessions[..|sessions| - 1]) + [sessions[|sessions| - 1].View()]
  }

  /** `sessions` is the iteration order of the session map. */
  method EnforceQueue(sessions: seq<TorrentSession>, maxDl: nat)
    requires Distinct(sessions)
    modifies sessions
    ensures Views(sessions) == Enforced(old(Views(sessions)), maxDl)
  {
    if maxDl == 0 {
      LiftQueuePauses(sessions);
    } else {
      ghost var ts := Views(sessions);
      var completedButQueued := CompletedButQueued(sessions);
      FillSlots(sessions, maxDl);
      ResumeCompleted(sessions, completedButQueued, ts, maxDl);
    }
  }

  method LiftQueuePauses(sessions: seq<TorrentSession>)
    requires Distinct(sessions)
    modifies sessions
    ensures forall i :: 0 <= i < |sessions| ==> sessions[i].View() == old(sessions[i].View()).AfterLift()
  {
    for n := 0 to |sessions|
      invariant forall i :: 0 <= i < n ==> sessions[i].View() == old(sessions[i].View()).AfterLift()
      invariant forall i :: n <= i < |sessions| ==> sessions[i].View() == old(sessions[i].View())
    {
      var s := sessions[n];
      if s.queuePaused {
        s.Resume();
        if !s.started {
          s.Start();
        }
      }
    }
  }

  method CompletedButQueued(sessions: seq<TorrentSession>) returns (r: seq<nat>)
    ensures forall i: nat :: i in r <==> i < |sessions| && sessions[i].View().IsComplete() && sessions[i].queuePaused
    ensures forall i, j :: 0 <= i < j < |r| ==> r[i] < r[j]
  {
    r := [];
    for n := 0 to |sessions|
      invariant forall i: nat :: i in r <==> i < n && sessions[i].View().IsComplete() && sessions[i].queuePaused
      invariant forall i, j :: 0 <= i < j < |r| ==> r[i] < r[j]
    {
      if sessions[n].queuePaused && sessions[n].View().IsComplete() {
        assert forall k :: 0 <= k < |r| ==> r[k] in r;
        r := r + [n];
      }
    }
  }

  /** A session after the loop over the candidates. */
  ghost function Slotted(ts: seq<Session>, k: nat, done: seq<Candidate>, i: nat): Session
    requires i < |ts|
  {
    if At(done, i) then ts[i].AfterSlot(At(done[..Min(k, |done|)], i)) else ts[i]
  }

  method FillSlots(sessions: seq<TorrentSession>, maxDl: nat)
    requires Distinct(sessions)
    modifies sessions
    ensures forall i :: 0 <= i < |sessions| ==>
      sessions[i].View() == Slotted(old(Views(sessions)), maxDl, Ranking(old(Views(sessions))), i)
  {
    hide Ranking, Session.AfterSlot, Slotted, IsRanking;
    ghost var ts := Views(sessions);
    var candidates := Ranking(Views(sessions));
    RankingIs(ts);
    NobodySlotted(ts, maxDl);
    var active := 0;
    for n := 0 to |candidates|
      invariant active == Min(n, maxDl)
      invariant forall i :: 0 <= i < |sessions| ==> sessions[i].View() == Slotted(ts, maxDl, candidates[..n], i)
    {
      var position := candidates[n].position;
      NextSlot(ts, maxDl, candidates, n);
      var s := sessions[position];
      if active < maxDl {
        active := active + 1;
        GiveSlot(s);
      } else {
        TakeSlot(s);
      }
    }
    assert candidates[..|candidates|] == candidates;
  }

  lemma NobodySlotted(ts: seq<Session>, k: nat)
    ensures forall i :: 0 <= i < |ts| ==> Slotted(ts, k, [], i) == ts[i]
  {
  }

  method GiveSlot(s: TorrentSession)
    modifies s
    ensures s.View() == old(s.View()).AfterSlot(true)
  {
    if !s.started {
      s.Resume();
      s.Start();
    } else if s.queuePaused {
      s.Resume();
    }
  }

  method TakeSlot(s: TorrentSession)
    modifies s
    ensures s.View() == old(s.View()).AfterSlot(false)
  {
    if !s.queuePaused {
      s.SetQueuePaused(true);
      s.Pause();
      s.state := Queued;
    }
  }

  /** The next candidate in the ranking gets a slot or not; nobody else is concerned. */
  lemma NextSlot(ts: seq<Session>, k: nat, r: seq<Candidate>, n: nat)
    requires IsRanking(ts, r) && n < |r|
    ensures r[n].position < |ts|
    ensures Slotted(ts, k, r[..n], r[n].position) == ts[r[n].position]
    ensures Slotted(ts, k, r[..n + 1], r[n].position) == ts[r[n].position].AfterSlot(n < k)
    ensures forall i :: 0 <= i < |ts| && i != r[n].position ==>
      Slotted(ts, k, r[..n + 1], i) == Slotted(ts, k, r[..n], i)
  {
    hide Session.AfterSlot;
    var p := r[n].position;
    assert r[n] in r;
    assert r[..n + 1][n].position == p;
    assert !At(r[..n], p);
    forall i ensures At(r[..n + 1], i) <==> i == p || At(r[..n], i) {
      AtGrows(r, n, i);
    }
    if n < k {
      assert r[..n + 1][..Min(k, n + 1)] == r[..n + 1] && r[..n][..Min(k, n)] == r[..n];
    } else {
      assert r[..n + 1][..k] == r[..n][..k];
      assert !At(r[..n][..k], p);
    }
  }

  lemma AtGrows(r: seq<Candidate>, n: nat, i: nat)
    requires n < |r|
    ensures At(r[..n + 1], i) <==> i == r[n].position || At(r[..n], i)
  {
    var more, less := r[..n + 1], r[..n];
    if At(less, i) {
      var q :| 0 <= q < |less| && less[q].position == i;
      assert more[q].position == i;
    }
    if i == r[n].position {
      assert more[n].position == i;
    }
    if At(more, i) && i != r[n].position {
      var q :| 0 <= q < |more| && more[q].position == i;
      assert less[q].position == i;
    }
  }

  /** Sessions that do not compete are not in the ranking. */
  lemma OnlyCompeting(ts: seq<Session>, i: nat)
    ensures At(Ranking(ts), i) <==> i < |ts| && ts[i].Competes()
  {
    hide Ranking;
    RankingIs(ts);
    var r := Ranking(ts);
    if i < |ts| && ts[i].Competes() {
      var c := Candidate(i, ts[i].Progress());
      assert c in r;
      var q :| 0 <= q < |r| && r[q] == c;
      assert r[q].position == i;
    }
    if At(r, i) {
      var q :| 0 <= q < |r| && r[q].position == i;
      assert r[q] in r;
    }
  }

  method ResumeCompleted(sessions: seq<TorrentSession>, completed: seq<nat>, ghost ts: seq<Session>, ghost k: nat)
    requires Distinct(sessions) && |ts| == |sessions| && k > 0
    requires forall i :: 0 <= i < |sessions| ==> sessions[i].View() == Slotted(ts, k, Ranking(ts), i)
    requires forall i: nat :: i in completed <==> i < |ts| && ts[i].IsComplete() && ts[i].queuePaused
    requires forall i, j :: 0 <= i < j < |completed| ==> completed[i] < completed[j]
    modifies sessions
    ensures Views(sessions) == Enforced(ts, k)
  {
    hide Ranking, Session.AfterSlot, Slotted, Session.AfterResume;
    forall i | 0 <= i < |sessions|
      ensures Slotted(ts, k, Ranking(ts), i)
        == if ts[i].Competes() then ts[i].AfterSlot(Chosen(ts, k, i)) else ts[i]
    {
      SlottedIs(ts, k, i);
    }
    for n := 0 to |completed|
      invariant forall i :: 0 <= i < |sessions| && i !in completed[..n] ==>
        sessions[i].View() == Slotted(ts, k, Ranking(ts), i)
      invariant forall i :: 0 <= i < |sessions| && i in completed[..n] ==> sessions[i].View() == ts[i].AfterResume()
    {
      assert completed[n] in completed && completed[n] !in completed[..n];
      assert completed[..n + 1] == completed[..n] + [completed[n]];
      sessions[completed[n]].Resume();
    }
    assert completed[..|completed|] == completed;
    forall i | 0 <= i < |sessions| ensures sessions[i].View() == After(ts, k, i) {
    }
  }

  lemma SlottedIs(ts: seq<Session>, k: nat, i: nat)
    requires i < |ts|
    ensures Slotted(ts, k, Ranking(ts), i) == if ts[i].Competes() then ts[i].AfterSlot(Chosen(ts, k, i)) else ts[i]
  {
    hide Ranking, Session.AfterSlot;
    OnlyCompeting(ts, i);
  }

  // ----- what enforcement guarantees

  ghost predicate FlagsOk(ts: seq<Session>) {
    forall i :: 0 <= i < |ts| ==> (ts[i].queuePaused ==> ts[i].paused)
  }

  ghost function Competing(ts: seq<Session>): set<nat> {
    set i | 0 <= i < |ts| && ts[i].Competes()
  }

  ghost function Active(ts: seq<Session>): set<nat> {
    set i | 0 <= i < |ts| && ts[i].Competes() && !ts[i].paused
  }

  ghost function Positions(cs: seq<Candidate>): set<nat> {
    set q | 0 <= q < |cs| :: cs[q].position
  }

  lemma {:induction false} PositionsCount(cs: seq<Candidate>)
    requires forall i, j :: 0 <= i < j < |cs| ==> cs[i].position != cs[j].position
    ensures |Positions(cs)| == |cs|
  {
    if cs != [] {
      var n := |cs| - 1;
      PositionsCount(cs[..n]);
      assert Positions(cs) == Positions(cs[..n]) + {cs[n].position};
      assert cs[n].position !in Positions(cs[..n]);
    }
  }

  lemma CompetingCount(ts: seq<Session>)
    ensures |Competing(ts)| == |Ranking(ts)|
  {
    hide Ranking;
    RankingIs(ts);
    PositionsCount(Ranking(ts));
    forall i: nat ensures i in Competing(ts) <==> i in Positions(Ranking(ts)) {
      OnlyCompeting(ts, i);
    }
    assert Competing(ts) == Positions(Ranking(ts));
  }

  lemma ChosenCompetes(ts: seq<Session>, k: nat, i: nat)
    requires Chosen(ts, k, i)
    ensures i < |ts| && ts[i].Competes()
  {
    hide Ranking;
    var top := Ranking(ts)[..Min(k, |Ranking(ts)|)];
    var q :| 0 <= q < |top| && top[q].position == i;
    RankingIs(ts);
    assert Ranking(ts)[q] in Ranking(ts);
  }

  lemma ChosenAreActive(ts: seq<Session>, k: nat, i: nat)
    requires k > 0 && FlagsOk(ts) && i < |ts|
    ensures i in Active(Enforced(ts, k)) <==> Chosen(ts, k, i)
    ensures After(ts, k, i).Competes() <==> ts[i].Competes()
  {
    hide Chosen;
    if Chosen(ts, k, i) {
      ChosenCompetes(ts, k, i);
    }
  }

  /** With a limit, exactly that many candidates run, or all of them if there are fewer;
      the same sessions compete as before. Of the others, those in the queue leave it (they
      are complete), and the rest stay as they are. */
  lemma SlotsAreFilled(ts: seq<Session>, k: nat)
    requires k > 0 && FlagsOk(ts)
    ensures Competing(Enforced(ts, k)) == Competing(ts)
    ensures |Active(Enforced(ts, k))| == Min(k, |Competing(ts)|)
    ensures forall i :: 0 <= i < |ts| && i !in Competing(ts) ==>
      Enforced(ts, k)[i] == if ts[i].queuePaused then ts[i].AfterResume() else ts[i]
  {
    hide Ranking;
    var top := Ranking(ts)[..Min(k, |Ranking(ts)|)];
    forall i: nat ensures i in Active(Enforced(ts, k)) <==> i in Positions(top) {
      if i < |ts| {
        ChosenAreActive(ts, k, i);
      } else if Chosen(ts, k, i) {
        ChosenCompetes(ts, k, i);
      }
    }
    forall i | 0 <= i < |ts| ensures After(ts, k, i).Competes() <==> ts[i].Competes() {
      ChosenAreActive(ts, k, i);
    }
    assert Active(Enforced(ts, k)) == Positions(top);
    RankingIs(ts);
    PositionsCount(top);
    CompetingCount(ts);
  }

  /** No running candidate is less progressed than a queued one. */
  lemma MostProgressedRun(ts: seq<Session>, k: nat, i: nat, j: nat)
    requires k > 0 && FlagsOk(ts)
    requires i in Active(Enforced(ts, k)) && j in Competing(ts) && j !in Active(Enforced(ts, k))
    ensures ts[i].Progress() >= ts[j].Progress()
    ensures ts[i].Progress() == ts[j].Progress() ==> i < j
    ensures Enforced(ts, k)[j].queuePaused && Enforced(ts, k)[j].paused
  {
    hide Ranking;
    ChosenAreActive(ts, k, i);
    ChosenAreActive(ts, k, j);
    OnlyCompeting(ts, j);
    RankingIs(ts);
    var r := Ranking(ts);
    var top := r[..Min(k, |r|)];
    var p :| 0 <= p < |top| && top[p].position == i;
    var q :| 0 <= q < |r| && r[q].position == j;
    assert forall m :: 0 <= m < |top| ==> r[m] == top[m] && top[m].position != j;
    assert r[p] in r && r[q] in r && Ahead(r[p], r[q]);
  }

  lemma {:induction false} SameCandidates(ts: seq<Session>, us: seq<Session>)
    requires |ts| == |us|
    requires forall i :: 0 <= i < |ts| ==> ts[i].Competes() == us[i].Competes() && ts[i].Progress() == us[i].Progress()
    ensures Candidates(ts) == Candidates(us)
  {
    if ts != [] {
      SameCandidates(ts[..|ts| - 1], us[..|us| - 1]);
    }
  }

  /** A second pass in the same order changes nothing. */
  lemma EnforcingTwice(ts: seq<Session>, k: nat)
    requires FlagsOk(ts)
    ensures Enforced(Enforced(ts, k), k) == Enforced(ts, k)
  {
    var us := Enforced(ts, k);
    if k > 0 {
      forall i | 0 <= i < |ts| ensures us[i].Competes() == ts[i].Competes() && us[i].Progress() == ts[i].Progress() {
        ChosenAreActive(ts, k, i);
      }
      SameCandidates(ts, us);
    }
    forall i | 0 <= i < |ts| ensures After(us, k, i) == us[i] {
      if k > 0 {
        assert Chosen(us, k, i) == Chosen(ts, k, i);
      }
    }
  }

  // ----- the same, flag by flag

  /** Without a limit nobody stays in the queue: who was in it runs, everybody else is as before. */
  lemma NoLimitEmptiesQueue(ts: seq<Session>, i: nat)
    requires i < |ts|
    ensures |Enforced(ts, 0)| == |ts|
    ensures ts[i].queuePaused ==>
      Enforced(ts, 0)[i] == Session(ts[i].completed, ts[i].numPieces, false, false, true,
                                    if ts[i].numPieces > 0 && ts[i].completed == ts[i].numPieces
                                    then Seeding else Downloading)
    ensures !ts[i].queuePaused ==> Enforced(ts, 0)[i] == ts[i]
  {
    assert Enforced(ts, 0)[i] == After(ts, 0, i);
  }

  /** With a limit a complete session leaves the queue, a session the user paused stays as it
      is, and every other one either runs or waits in the queue. */
  lemma WithLimit(ts: seq<Session>, k: nat, i: nat)
    requires k > 0 && FlagsOk(ts) && i < |ts|
    ensures var t, e := ts[i], Enforced(ts, k)[i];
      var complete := t.numPieces > 0 && t.completed == t.numPieces;
      && (complete && t.queuePaused ==> e == Session(t.completed, t.numPieces, false, false, t.started, Seeding))
      && (complete && !t.queuePaused ==> e == t)
      && (!complete && t.paused && !t.queuePaused ==> e == t)
      && (!complete && (t.paused ==> t.queuePaused) && !e.paused ==>
            e == Session(t.completed, t.numPieces, false, false, true,
                         if t.started && !t.queuePaused then t.state else Downloading))
      && (!complete && (t.paused ==> t.queuePaused) && e.paused ==>
            e == Session(t.completed, t.numPieces, true, true, t.started,
                         if t.queuePaused then t.state else Queued))
  {
    hide Chosen;
    assert Enforced(ts, k)[i] == After(ts, k, i);
  }

  /** More of its pieces are there, compared as fractions; no pieces count as nothing. */
  ghost predicate Further(a: Session, b: Session) {
    && a.numPieces > 0
    && if b.numPieces == 0 then a.completed > 0 else a.completed * b.numPieces > b.completed * a.numPieces
  }

  lemma FurtherIsProgress(a: Session, b: Session)
    ensures Further(a, b) <==> a.Progress() > b.Progress()
  {
    if a.numPieces > 0 && b.numPieces > 0 {
      QuotientsCompare(a.completed, a.numPieces, b.completed, b.numPieces);
    } else if a.numPieces > 0 {
      var n, d := a.completed as real, a.numPieces as real;
      assert n / d * d == n;
    } else if b.numPieces > 0 {
      var n, d := b.completed as real, b.numPieces as real;
      assert n / d * d == n;
    }
  }

  lemma QuotientsCompare(a: nat, b: nat, c: nat, d: nat)
    requires b > 0 && d > 0
    ensures a as real / b as real > c as real / d as real <==> a * d > c * b
  {
    var x, y := a as real / b as real, c as real / d as real;
    var p, q := b as real, d as real;
    assert x * p == a as real && y * q == c as real;
    assert (a * d) as real == x * (p * q) && (c * b) as real == y * (p * q);
    assert p * q > 0.0;
    if x > y {
      assert (x - y) * (p * q) > 0.0;
    } else {
      assert (y - x) * (p * q) >= 0.0;
    }
  }

  /** Takes part: neither complete nor paused by the user. */
  ghost predicate TakesPart(t: Session) {
    !(t.numPieces > 0 && t.completed == t.numPieces) && (t.paused ==> t.queuePaused)
  }

  /** The sessions that go before this one: those further on, and of the others no less far
      on those that the iteration meets earlier. */
  ghost function GoBefore(ts: seq<Session>, i: nat): set<nat>
    requires i < |ts|
  {
    set j: nat | j < |ts| && TakesPart(ts[j]) && (Further(ts[j], ts[i]) || (!Further(ts[i], ts[j]) && j < i))
  }

  /** Whoever takes part runs exactly if fewer go before it than there are slots. */
  lemma RunsExactly(ts: seq<Session>, k: nat, i: nat)
    requires k > 0 && FlagsOk(ts) && i < |ts| && TakesPart(ts[i])
    ensures !Enforced(ts, k)[i].paused <==> |GoBefore(ts, i)| < k
  {
    hide Ranking, Session.Progress;
    RankingIs(ts);
    OnlyCompeting(ts, i);
    var r := Ranking(ts);
    var q :| 0 <= q < |r| && r[q].position == i;
    assert r[q] in r;
    forall j: nat ensures j in GoBefore(ts, i) <==> j in Positions(r[..q]) {
      GoBeforeIsRank(ts, i, q, j);
    }
    assert GoBefore(ts, i) == Positions(r[..q]);
    PositionsCount(r[..q]);
    ChosenIsRank(ts, k, i, q);
    ChosenAreActive(ts, k, i);
  }

  lemma ChosenIsRank(ts: seq<Session>, k: nat, i: nat, q: nat)
    requires q < |Ranking(ts)| && Ranking(ts)[q].position == i
    ensures Chosen(ts, k, i) <==> q < k
  {
    hide Ranking;
    RankingIs(ts);
    var top := Ranking(ts)[..Min(k, |Ranking(ts)|)];
    if q < k {
      assert top[q].position == i;
    }
    if Chosen(ts, k, i) {
      var p :| 0 <= p < |top| && top[p].position == i;
      assert p == q;
    }
  }

  lemma GoBeforeIsRank(ts: seq<Session>, i: nat, q: nat, j: nat)
    requires i < |ts| && q < |Ranking(ts)| && Ranking(ts)[q].position == i
    ensures j in GoBefore(ts, i) <==> j in Positions(Ranking(ts)[..q])
  {
    hide Ranking, Session.Progress, Further;
    RankingIs(ts);
    OnlyCompeting(ts, j);
    var r := Ranking(ts);
    assert r[q] in r;
    if At(r, j) {
      var p :| 0 <= p < |r| && r[p].position == j;
      assert r[p] in r;
      FurtherIsProgress(ts[j], ts[i]);
      FurtherIsProgress(ts[i], ts[j]);
      assert p < q ==> Ahead(r[p], r[q]) && r[..q][p].position == j;
      assert q < p ==> Ahead(r[q], r[p]);
      if j in Positions(r[..q]) {
        var m :| 0 <= m < q && r[..q][m].position == j;
        assert m == p;
      }
    } else {
      assert forall m :: 0 <= m < q ==> r[..q][m].position == r[m].position != j;
    }
  }

  // ----- whole runs

  /** `PiecesNow` is a verified piece, a recheck that loses some, or a magnet link that turns
      into a torrent; `Swapped` stands for a changed iteration order of the session map. */
  datatype Op =
    | UserPause(i: nat)
    | UserResume(i: nat)
    | QueuePause(i: nat)
    | Enforce(k: nat)
    | PiecesNow(i: nat, completed: nat, numPieces: nat)
    | Added(s: Session)
    | Removed(i: nat)
    | Swapped(i: nat, j: nat)

  /** A new session has the pause flag that its resume data left, and is not in the queue. */
  ghost function Applied(ts: seq<Session>, op: Op): seq<Session> {
    match op
    case UserPause(i) => if i < |ts| then ts[i := ts[i].AfterUserPause()] else ts
    case UserResume(i) => if i < |ts| then ts[i := ts[i].AfterResume().(started := true)] else ts
    case QueuePause(i) => if i < |ts| then ts[i := ts[i].AfterQueuePause()] else ts
    case Enforce(k) => Enforced(ts, k)
    case PiecesNow(i, completed, numPieces) =>
      if i < |ts| then ts[i := ts[i].(completed := completed, numPieces := numPieces)] else ts
    case Added(s) => ts + [s.(queuePaused := false, started := false)]
    case Removed(i) => if i < |ts| then ts[..i] + ts[i + 1..] else ts
    case Swapped(i, j) => if i < |ts| && j < |ts| then ts[i := ts[j]][j := ts[i]] else ts
  }

  ghost function RunAll(ts: seq<Session>, ops: seq<Op>): seq<Session>
    decreases |ops|
  {
    if ops == [] then ts else Applied(RunAll(ts, ops[..|ops| - 1]), ops[|ops| - 1])
  }

  /** Every control operation keeps a queue-paused session paused. */
  lemma {:induction false} QueuePausedMeansPaused(ts: seq<Session>, ops: seq<Op>)
    requires FlagsOk(ts)
    ensures FlagsOk(RunAll(ts, ops))
    decreases |ops|
  {
    if ops != [] {
      QueuePausedMeansPaused(ts, ops[..|ops| - 1]);
      AppliedKeepsFlags(RunAll(ts, ops[..|ops| - 1]), ops[|ops| - 1]);
    }
  }

  lemma AppliedKeepsFlags(ts: seq<Session>, op: Op)
    requires FlagsOk(ts)
    ensures FlagsOk(Applied(ts, op))
  {
    hide Chosen;
  }

  /** After any history, enforcing a limit leaves exactly so many candidates running. */
  lemma LimitHoldsAfterAnyRun(ops: seq<Op>, k: nat)
    requires k > 0
    ensures var ts := RunAll([], ops);
      |Active(Enforced(ts, k))| == Min(k, |Competing(ts)|)
  {
    QueuePausedMeansPaused([], ops);
    SlotsAreFilled(RunAll([], ops), k);
  }

  /** After any history, lifting the limit leaves the queue empty: everybody is unpaused but
      those that the user paused, and those that waited are started. */
  lemma NobodyWaitsWithoutLimit(ops: seq<Op>, i: nat)
    requires i < |RunAll([], ops)|
    ensures var t, e := RunAll([], ops)[i], RunAll([], ops + [Enforce(0)])[i];
      && !e.queuePaused
      && e.completed == t.completed && e.numPieces == t.numPieces
      && (e.paused <==> t.paused && !t.queuePaused)
      && (e.started <==> t.started || t.queuePaused)
      && e.state == if !t.queuePaused then t.state
                    else if t.numPieces > 0 && t.completed == t.numPieces then Seeding else Downloading
  {
    assert (ops + [Enforce(0)])[..|ops|] == ops;
    QueuePausedMeansPaused([], ops);
    NoLimitEmptiesQueue(RunAll([], ops), i);
  }

  /** Not to be moved, and not resumed or queued by the user. */
  ghost predicate Leaves(op: Op, i: nat) {
    !op.Removed? && !op.Swapped? && op != UserResume(i) && op != QueuePause(i)
  }

  /** No enforcement, with whatever limit, lifts a pause of the user's. */
  lemma {:induction false} UserPauseStays(ts: seq<Session>, ops: seq<Op>, i: nat)
    requires i < |ts| && ts[i].paused && !ts[i].queuePaused
    requires forall op :: op in ops ==> Leaves(op, i)
    ensures var us := RunAll(ts, ops); i < |us| && us[i].paused && !us[i].queuePaused
    decreases |ops|
  {
    if ops != [] {
      UserPauseStays(ts, ops[..|ops| - 1], i);
      assert Leaves(ops[|ops| - 1], i);
      var us := RunAll(ts, ops[..|ops| - 1]);
      UserPauseSurvives(us, ops[|ops| - 1], i);
    }
  }

  lemma UserPauseSurvives(ts: seq<Session>, op: Op, i: nat)
    requires i < |ts| && ts[i].paused && !ts[i].queuePaused && Leaves(op, i)
    ensures var us := Applied(ts, op); i < |us| && us[i].paused && !us[i].queuePaused
  {
    hide Chosen;
    match op
    case Enforce(k) => assert Enforced(ts, k)[i] == After(ts, k, i);
    case _ =>
  }
}
