/** The Ready and Errored conditions of a DeviceConfig (internal/conditions). */
module Conditions {
  import opened Wrappers
  import opened Api

  const READY := "Ready"
  const ERRORED := "Errored"

  /** Position of the first condition of a kind, or the length of the list. */
  function IndexOf(cs: seq<Condition>, kind: string): (i: nat)
    ensures i <= |cs|
    ensures i < |cs| ==> cs[i].kind == kind
    ensures forall j :: 0 <= j < i ==> cs[j].kind != kind
  {
    if cs == [] then 0
    else if cs[0].kind == kind then 0
    else 1 + IndexOf(cs[1..], kind)
  }

  /** Upsert by kind. The transition time moves only when the status flips. */
  function SetStatusCondition(cs: seq<Condition>, c: Condition, now: nat): seq<Condition> {
    var i := IndexOf(cs, c.kind);
    if i == |cs| then cs + [c.(lastTransition := now)]
    else
      var time := if cs[i].status != c.status then now else cs[i].lastTransition;
      cs[i := c.(lastTransition := time)]
  }

  predicate UniqueKinds(cs: seq<Condition>) {
    forall i, j :: 0 <= i < j < |cs| ==> cs[i].kind != cs[j].kind
  }

  function Find(cs: seq<Condition>, kind: string): Option<Condition> {
    var i := IndexOf(cs, kind);
    if i < |cs| then Some(cs[i]) else None
  }

  function StatusOf(cs: seq<Condition>, kind: string): Option<ConditionStatus> {
    match Find(cs, kind)
    case Some(c) => Some(c.status)
    case None => None
  }

  predicate IsReady(cs: seq<Condition>) {
    StatusOf(cs, READY) == Some(ConditionTrue)
  }

  /** Ready and Errored are both present and say opposite things. */
  predicate Complementary(cs: seq<Condition>) {
    || (StatusOf(cs, READY) == Some(ConditionTrue) && StatusOf(cs, ERRORED) == Some(ConditionFalse))
    || (StatusOf(cs, READY) == Some(ConditionFalse) && StatusOf(cs, ERRORED) == Some(ConditionTrue))
  }

  /** What a list of conditions looks like before the first update and after any number of them. */
  predicate WellFormed(cs: seq<Condition>) {
    && UniqueKinds(cs)
    && (Complementary(cs) || (StatusOf(cs, READY) == None && StatusOf(cs, ERRORED) == None))
  }

  /** One upsert: kinds stay unique, every other entry keeps its place and content, the named one
      takes the new status, and its time moves exactly on a flip. */
  lemma UpsertLaws(cs: seq<Condition>, c: Condition, now: nat)
    requires UniqueKinds(cs)
    ensures var cs' := SetStatusCondition(cs, c, now);
            && UniqueKinds(cs')
            && |cs| <= |cs'|
            && (forall i :: 0 <= i < |cs| && cs[i].kind != c.kind ==> cs'[i] == cs[i])
            && (forall i :: 0 <= i < |cs| ==> cs'[i].kind == cs[i].kind)
            && (forall i :: |cs| <= i < |cs'| ==> cs'[i].kind == c.kind)
            && (forall k :: k != c.kind ==> Find(cs', k) == Find(cs, k))
            && Find(cs', c.kind).Some?
            && var e := Find(cs', c.kind).value;
            && e == c.(lastTransition := e.lastTransition)
            && (StatusOf(cs, c.kind) == Some(c.status) ==> e.lastTransition == Find(cs, c.kind).value.lastTransition)
            && (StatusOf(cs, c.kind) != Some(c.status) ==> e.lastTransition == now)
  {
    var cs' := SetStatusCondition(cs, c, now);
    forall k | k != c.kind ensures Find(cs', k) == Find(cs, k) {
      var i, j := IndexOf(cs, k), IndexOf(cs', k);
      if i < |cs| {
        assert cs'[i].kind == k;
        assert j == i;
      }
    }
    var i, j := IndexOf(cs, c.kind), IndexOf(cs', c.kind);
    assert cs'[i].kind == c.kind;
    assert j == i;
  }

  /** One step of a history of updates. */
  datatype Update = ReadyUpdate(reason: string, message: string) | ErroredUpdate(reason: string, message: string)

  /** The Ready condition and then the Errored condition that an update writes. */
  function Parts(u: Update): (Condition, Condition) {
    match u
    case ReadyUpdate(r, m) =>
      (Condition(READY, ConditionTrue, r, m, 0), Condition(ERRORED, ConditionFalse, READY, "", 0))
    case ErroredUpdate(r, m) =>
      (Condition(READY, ConditionFalse, ERRORED, "", 0), Condition(ERRORED, ConditionTrue, r, m, 0))
  }

  function Apply(cs: seq<Condition>, u: Update, now: nat): seq<Condition> {
    SetStatusCondition(SetStatusCondition(cs, Parts(u).0, now), Parts(u).1, now)
  }

  /** The stored condition is `c` with the time `t`. */
  predicate Holds(cs: seq<Condition>, c: Condition) {
    Find(cs, c.kind).Some? && Find(cs, c.kind).value == c.(lastTransition := Find(cs, c.kind).value.lastTransition)
  }

  /** Entries keep their places, and those that are not part of the pair keep their content. */
  predicate KeepsOthers(cs: seq<Condition>, cs': seq<Condition>) {
    && |cs| <= |cs'|
    && forall i :: 0 <= i < |cs| ==>
         cs'[i].kind == cs[i].kind && (cs[i].kind == READY || cs[i].kind == ERRORED || cs'[i] == cs[i])
  }

  lemma KeepsOthersTransitive(a: seq<Condition>, b: seq<Condition>, c: seq<Condition>)
    requires KeepsOthers(a, b) && KeepsOthers(b, c)
    ensures KeepsOthers(a, c)
  {
  }

  /** A reader who looks for this kind finds it with these values. */
  predicate Shows(cs: seq<Condition>, kind: string, status: ConditionStatus, reason: string, message: string) {
    match Find(cs, kind)
    case Some(c) => c.kind == kind && c.status == status && c.reason == reason && c.message == message
    case None => false
  }

  /** What a reader finds after an update, value by value. */
  lemma UpdateShows(cs: seq<Condition>, u: Update, now: nat)
    requires UniqueKinds(cs)
    ensures u.ReadyUpdate? ==>
              Shows(Apply(cs, u, now), "Ready", ConditionTrue, u.reason, u.message) &&
              Shows(Apply(cs, u, now), "Errored", ConditionFalse, "Ready", "")
    ensures u.ErroredUpdate? ==>
              Shows(Apply(cs, u, now), "Ready", ConditionFalse, "Errored", "") &&
              Shows(Apply(cs, u, now), "Errored", ConditionTrue, u.reason, u.message)
  {
    UpdateLaws(cs, u, now);
    hide Apply, KeepsOthers;
  }

  /** A complete update: both conditions are stored as written and the pair is complementary,
      unrelated conditions keep content and position, and a time moves exactly when its status
      flips. */
  lemma UpdateLaws(cs: seq<Condition>, u: Update, now: nat)
    requires UniqueKinds(cs)
    ensures var cs' := Apply(cs, u, now);
            && UniqueKinds(cs') && Complementary(cs')
            && (IsReady(cs') <==> u.ReadyUpdate?)
            && Holds(cs', Parts(u).0) && Holds(cs', Parts(u).1)
            && KeepsOthers(cs, cs')
            && (forall k | k == READY || k == ERRORED ::
                  Find(cs', k).value.lastTransition ==
                  if StatusOf(cs, k) == StatusOf(cs', k) then Find(cs, k).value.lastTransition else now)
  {
    var (first, second) := Parts(u);
    UpsertLaws(cs, first, now);
    UpsertLaws(SetStatusCondition(cs, first, now), second, now);
  }

  predicate ErroredWith(cs: seq<Condition>, reason: string) {
    Find(cs, ERRORED).Some? && Find(cs, ERRORED).value.status == ConditionTrue && Find(cs, ERRORED).value.reason == reason
  }

  /** What a reader of the stored conditions sees after an update. */
  lemma UpdateOutcome(cs: seq<Condition>, u: Update, now: nat)
    requires WellFormed(cs)
    ensures WellFormed(Apply(cs, u, now))
    ensures IsReady(Apply(cs, u, now)) <==> u.ReadyUpdate?
    ensures u.ErroredUpdate? ==> ErroredWith(Apply(cs, u, now), u.reason)
  {
    UpdateLaws(cs, u, now);
    hide Apply, KeepsOthers;
  }

  /** Any non-empty history of updates, whatever the clock shows at each of them. */
  function ApplyAll(cs: seq<Condition>, us: seq<(Update, nat)>): seq<Condition>
    decreases |us|
  {
    if us == [] then cs
    else ApplyAll(Apply(cs, us[0].0, us[0].1), us[1..])
  }

  /** After any history the last update decides the pair, and unrelated conditions are untouched. */
  lemma {:induction false} HistoryLaws(cs: seq<Condition>, us: seq<(Update, nat)>)
    requires UniqueKinds(cs)
    ensures var cs' := ApplyAll(cs, us);
            && UniqueKinds(cs')
            && (us != [] ==> Complementary(cs') && (IsReady(cs') <==> us[|us| - 1].0.ReadyUpdate?))
            && KeepsOthers(cs, cs')
    decreases |us|
  {
    hide Apply, Complementary, IsReady;
    if us != [] {
      var next := Apply(cs, us[0].0, us[0].1);
      UpdateLaws(cs, us[0].0, us[0].1);
      HistoryLaws(next, us[1..]);
      KeepsOthersTransitive(cs, next, ApplyAll(next, us[1..]));
    }
  }

  /** Repeating the same update changes nothing, not even a transition time. */
  lemma RepeatIsNoOp(cs: seq<Condition>, u: Update, now: nat, later: nat)
    requires UniqueKinds(cs)
    ensures Apply(Apply(cs, u, now), u, later) == Apply(cs, u, now)
  {
    UpdateLaws(cs, u, now);
    HeldIsNoOp(Apply(cs, u, now), Parts(u).0, later);
    HeldIsNoOp(Apply(cs, u, now), Parts(u).1, later);
  }

  lemma HeldIsNoOp(cs: seq<Condition>, c: Condition, now: nat)
    requires Holds(cs, c)
    ensures SetStatusCondition(cs, c, now) == cs
  {
  }
}
