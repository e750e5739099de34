/** The claim race on one task at the grain of single file-system calls: any number
    of `claimTask` calls, interleaved between their renames, reads and writes. A call
    that stops half way is one that is never scheduled again. */
module ClaimRace {
  import opened Wrappers
  import opened TaskStore

  type CallId = nat

  datatype Json = Json(status: Status, assignedTo: Option<MemberId>, claimedBy: Option<MemberId>)

  /** The next system call of a running `claimTask`. */
  datatype Pc =
    | RenameIn                   // rename pending -> in_progress
    | ReadFile
    | RollBack                   // rename in_progress -> pending
    | ReadStates(json: Json)     // reads the other tasks; the outcome is the environment's
    | WriteBlocked(json: Json)
    | RenameBlocked              // rename in_progress -> blocked
    | WriteClaim(json: Json)
    | Returned(ok: bool)

  datatype Call = Call(member: MemberId, pc: Pc)

  /** `files` says in which directories the task's file is, and with which content. */
  datatype World = World(files: map<Status, Json>, calls: map<CallId, Call>)

  /** `rename` replaces what lies at its destination. */
  function RenameFile(files: map<Status, Json>, from: Status, to: Status): map<Status, Json> {
    if from in files then (files - {from})[to := files[from]] else files
  }

  /** What the environment answers: are dependencies unmet, does the file fit. */
  datatype Answer = Answer(unmet: bool, fits: bool)

  function Claimable(j: Json, member: MemberId): bool {
    if Truthy(j.claimedBy) then j.claimedBy == Some(member)
    else j.assignedTo == None || j.assignedTo == Some(member)
  }

  function Move(w: World, c: CallId, files: map<Status, Json>, pc: Pc): World
    requires c in w.calls
  {
    World(files, w.calls[c := w.calls[c].(pc := pc)])
  }

  /** One system call of call `c`. */
  function Step(w: World, c: CallId, a: Answer): (r: World)
    requires c in w.calls
    ensures r.calls.Keys == w.calls.Keys
  {
    var f := w.files;
    match w.calls[c].pc
    case RenameIn =>
      if PENDING in f then Move(w, c, RenameFile(f, PENDING, IN_PROGRESS), ReadFile)
      else Move(w, c, f, Returned(false))
    case ReadFile =>
      if IN_PROGRESS !in f then Move(w, c, f, Returned(false))
      else if !Claimable(f[IN_PROGRESS], w.calls[c].member) then Move(w, c, f, RollBack)
      else Move(w, c, f, ReadStates(f[IN_PROGRESS]))
    case RollBack => Move(w, c, RenameFile(f, IN_PROGRESS, PENDING), Returned(false))
    case ReadStates(j) =>
      Move(w, c, f, if a.unmet then WriteBlocked(j) else if !a.fits then RollBack else WriteClaim(j))
    case WriteBlocked(j) => Move(w, c, f[IN_PROGRESS := j.(status := BLOCKED)], RenameBlocked)
    case RenameBlocked => Move(w, c, RenameFile(f, IN_PROGRESS, BLOCKED), Returned(false))
    case WriteClaim(j) =>
      Move(w, c, f[IN_PROGRESS := j.(status := IN_PROGRESS, claimedBy := Some(w.calls[c].member))], Returned(true))
    case Returned(_) => w
  }

  /** A schedule: whose turn it is and what the environment answers. */
  datatype Turn = Turn(call: CallId, answer: Answer)

  predicate Scheduled(w: World, turns: seq<Turn>) {
    forall i :: 0 <= i < |turns| ==> turns[i].call in w.calls
  }

  function Play(w: World, turns: seq<Turn>): World
    requires Scheduled(w, turns)
    decreases |turns|
  {
    if turns == [] then w
    else
      var w' := Step(w, turns[0].call, turns[0].answer);
      assert forall i :: 0 <= i < |turns[1..]| ==> turns[1..][i] == turns[i + 1];
      Play(w', turns[1..])
  }

  // -------------------------------------------------------------- the invariant

  /** The call has taken the file out of pending and not put it anywhere yet. */
  predicate Holding(pc: Pc) {
    !pc.RenameIn? && !pc.Returned?
  }

  ghost predicate HoldsFile(w: World, c: CallId) {
    c in w.calls && Holding(w.calls[c].pc)
  }

  ghost predicate Won(w: World, c: CallId) {
    c in w.calls && w.calls[c].pc == Returned(true)
  }

  /** The calls that hold the file or have won it. */
  ghost predicate Engaged(w: World, c: CallId) {
    HoldsFile(w, c) || Won(w, c)
  }

  ghost predicate OneDirectory(w: World) {
    exists d :: w.files.Keys == {d}
  }

  ghost predicate EngagedOk(w: World, c: CallId) {
    && w.files.Keys == {IN_PROGRESS}
    && (Won(w, c) ==> w.files[IN_PROGRESS].status == IN_PROGRESS
                      && w.files[IN_PROGRESS].claimedBy == Some(w.calls[c].member))
    && forall c' {:trigger Engaged(w, c')} :: Engaged(w, c') ==> c' == c
  }

  ghost predicate Inv(w: World) {
    && OneDirectory(w)
    && forall c {:trigger Engaged(w, c)} :: Engaged(w, c) ==> EngagedOk(w, c)
  }

  /** Before the race: one file somewhere, every call at its first rename. */
  ghost predicate Init(w: World) {
    && OneDirectory(w)
    && forall c :: c in w.calls ==> w.calls[c].pc == RenameIn
  }

  lemma RenameKeepsOne(files: map<Status, Json>, from: Status, to: Status)
    requires files.Keys == {from} && from != to
    ensures RenameFile(files, from, to).Keys == {to}
  {
  }

  lemma OthersStay(w: World, c: CallId, a: Answer, c': CallId)
    requires c in w.calls && c' != c
    ensures Engaged(Step(w, c, a), c') <==> Engaged(w, c')
    ensures Won(Step(w, c, a), c') <==> Won(w, c')
  {
  }

  lemma StepKeepsInv(w: World, c: CallId, a: Answer)
    requires Inv(w) && c in w.calls
    ensures Inv(Step(w, c, a))
  {
    var w' := Step(w, c, a);
    if w.calls[c].pc == RenameIn {
      StartKeepsInv(w, c, a);
    } else if !w.calls[c].pc.Returned? {
      assert Engaged(w, c);
      HolderKeepsInv(w, c, a);
    }
  }

  lemma StartKeepsInv(w: World, c: CallId, a: Answer)
    requires Inv(w) && c in w.calls && w.calls[c].pc == RenameIn
    ensures Inv(Step(w, c, a))
  {
    var w' := Step(w, c, a);
    if PENDING in w.files {
      var d :| w.files.Keys == {d};
      assert PENDING in w.files.Keys;
      RenameKeepsOne(w.files, PENDING, IN_PROGRESS);
      forall c' ensures c' != c ==> !Engaged(w', c') {
        if c' != c {
          OthersStay(w, c, a, c');
        }
      }
    } else {
      assert !Engaged(w', c);
      forall c' | Engaged(w', c') ensures EngagedOk(w', c') {
        OthersStay(w, c, a, c');
        assert EngagedOk(w, c');
        forall x | Engaged(w', x) ensures x == c' {
          OthersStay(w, c, a, x);
        }
      }
    }
  }

  lemma HolderKeepsInv(w: World, c: CallId, a: Answer)
    requires Inv(w) && c in w.calls && HoldsFile(w, c)
    ensures Inv(Step(w, c, a))
  {
    var w' := Step(w, c, a);
    assert Engaged(w, c);
    assert w.files.Keys == {IN_PROGRESS};
    forall c' | Engaged(w', c') ensures c' == c {
      if c' != c {
        OthersStay(w, c, a, c');
      }
    }
    match w.calls[c].pc
    case RollBack => RenameKeepsOne(w.files, IN_PROGRESS, PENDING);
    case RenameBlocked => RenameKeepsOne(w.files, IN_PROGRESS, BLOCKED);
    case WriteBlocked(j) => assert w'.files.Keys == {IN_PROGRESS};
    case WriteClaim(j) => assert w'.files.Keys == {IN_PROGRESS};
    case _ =>
  }

  lemma {:induction false} PlayKeepsInv(w: World, turns: seq<Turn>)
    requires Inv(w) && Scheduled(w, turns)
    ensures Inv(Play(w, turns))
    decreases |turns|
  {
    if turns != [] {
      StepKeepsInv(w, turns[0].call, turns[0].answer);
      PlayKeepsInv(Step(w, turns[0].call, turns[0].answer), turns[1..]);
    }
  }

  /** In every interleaving at most one call succeeds, the file is always in exactly
      one directory, and after a success it is in progress under the winner's name. */
  lemma AtMostOneClaims(w: World, turns: seq<Turn>, c0: CallId, c1: CallId)
    requires Init(w) && Scheduled(w, turns)
    ensures var w' := Play(w, turns);
      && OneDirectory(w')
      && (Won(w', c0) && Won(w', c1) ==> c0 == c1)
      && (Won(w', c0) ==>
            && w'.files.Keys == {IN_PROGRESS}
            && w'.files[IN_PROGRESS].claimedBy == Some(w'.calls[c0].member))
  {
    forall c ensures !Engaged(w, c) {}
    PlayKeepsInv(w, turns);
    var w' := Play(w, turns);
    assert Engaged(w', c0) ==> EngagedOk(w', c0);
    assert Won(w', c1) ==> Engaged(w', c1);
  }

  // ------------------------------------------------ the race and the operation

  function Alone(t: Task, member: MemberId, pc: Pc): World {
    World(map[t.dir := Json(t.status, t.assignedTo, t.claimedBy)], map[0 := Call(member, pc)])
  }

  /** The five system calls of a call nobody interferes with. */
  function Solo(w: World, a: Answer): World
    requires 0 in w.calls
  {
    Step(Step(Step(Step(Step(w, 0, a), 0, a), 0, a), 0, a), 0, a)
  }

  predicate CanClaim(t: Task, member: MemberId) {
    Claimable(Json(t.status, t.assignedTo, t.claimedBy), member)
  }

  lemma SoloMisses(t: Task, member: MemberId, a: Answer)
    requires t.dir != PENDING
    ensures Solo(Alone(t, member, RenameIn), a) == Alone(t, member, Returned(false))
  {
    assert Step(Alone(t, member, RenameIn), 0, a) == Alone(t, member, Returned(false));
  }

  lemma SoloRollsBack(t: Task, member: MemberId, a: Answer)
    requires t.dir == PENDING && (!CanClaim(t, member) || (!a.unmet && !a.fits))
    ensures Solo(Alone(t, member, RenameIn), a) == Alone(t, member, Returned(false))
  {
    var aside := t.(dir := IN_PROGRESS);
    assert Step(Alone(t, member, RenameIn), 0, a) == Alone(aside, member, ReadFile);
    assert Step(Alone(aside, member, RollBack), 0, a) == Alone(t, member, Returned(false));
    if !CanClaim(t, member) {
      assert Step(Alone(aside, member, ReadFile), 0, a) == Alone(aside, member, RollBack);
    } else {
      var j := Json(t.status, t.assignedTo, t.claimedBy);
      assert Step(Alone(aside, member, ReadStates(j)), 0, a) == Alone(aside, member, RollBack);
    }
  }

  lemma SoloBlocks(t: Task, member: MemberId, a: Answer)
    requires t.dir == PENDING && CanClaim(t, member) && a.unmet
    ensures Solo(Alone(t, member, RenameIn), a) ==
            Alone(t.(dir := BLOCKED, status := BLOCKED), member, Returned(false))
  {
    var aside, j := t.(dir := IN_PROGRESS), Json(t.status, t.assignedTo, t.claimedBy);
    assert Step(Alone(t, member, RenameIn), 0, a) == Alone(aside, member, ReadFile);
    assert Step(Alone(aside, member, ReadStates(j)), 0, a) == Alone(aside, member, WriteBlocked(j));
    var written := aside.(status := BLOCKED);
    assert Step(Alone(aside, member, WriteBlocked(j)), 0, a) == Alone(written, member, RenameBlocked);
    assert Step(Alone(written, member, RenameBlocked), 0, a) ==
           Alone(written.(dir := BLOCKED), member, Returned(false));
  }

  lemma SoloClaims(t: Task, member: MemberId, a: Answer)
    requires t.dir == PENDING && CanClaim(t, member) && !a.unmet && a.fits
    ensures Solo(Alone(t, member, RenameIn), a) ==
            Alone(t.(dir := IN_PROGRESS, status := IN_PROGRESS, claimedBy := Some(member)), member, Returned(true))
  {
    var aside, j := t.(dir := IN_PROGRESS), Json(t.status, t.assignedTo, t.claimedBy);
    assert Step(Alone(t, member, RenameIn), 0, a) == Alone(aside, member, ReadFile);
    assert Step(Alone(aside, member, ReadStates(j)), 0, a) == Alone(aside, member, WriteClaim(j));
    assert Step(Alone(aside, member, WriteClaim(j)), 0, a) ==
           Alone(aside.(status := IN_PROGRESS, claimedBy := Some(member)), member, Returned(true));
  }

  /** Left alone, the system calls come to what the operation of module TaskStore does
      to the file in one step. */
  lemma SoloIsClaim(s: Tasks, id: TaskId, member: MemberId, fits: bool)
    requires id in s
    ensures var a := Answer(!AreTaskDependenciesSatisfied(s, s[id]), fits);
      var (s', outcome) := AfterClaim(s, id, member, fits);
      Solo(Alone(s[id], member, RenameIn), a) == Alone(s'[id], member, Returned(outcome == Ok))
  {
    var t, a := s[id], Answer(!AreTaskDependenciesSatisfied(s, s[id]), fits);
    if t.dir != PENDING {
      SoloMisses(t, member, a);
    } else if !CanClaim(t, member) || (!a.unmet && !fits) {
      SoloRollsBack(t, member, a);
    } else if a.unmet {
      SoloBlocks(t, member, a);
    } else {
      SoloClaims(t, member, a);
    }
  }
}
