/** The rate-candidate review lifecycle, guarded twice (backend/app/models.py, backend/alembic/versions/20260817_0014). */
module ReviewLifecycle {
  import opened Outcomes

  datatype State = Reviewed | Published | Activated | Rejected

  datatype Review = Review(
    candidate: int, home: int, planName: Option<string>, effectiveStart: Option<int>, effectiveEnd: Option<int>,
    tierRule: Option<int>, state: State, reviewedBy: int, reviewedAt: int, rateVersion: Option<int>,
    account: Option<int>, publishedAt: Option<int>, activatedAt: Option<int>)

  datatype Field =
    | CandidateId | HomeId | PlanName | EffectiveStart | EffectiveEnd | TierRule | StateField
    | ReviewedBy | ReviewedAt | RateVersion | AccountId | PublishedAt | ActivatedAt

  // ----- the ORM listener -----

  predicate Differs(f: Field, old_: Review, new_: Review) {
    match f
    case CandidateId => old_.candidate != new_.candidate
    case HomeId => old_.home != new_.home
    case PlanName => old_.planName != new_.planName
    case EffectiveStart => old_.effectiveStart != new_.effectiveStart
    case EffectiveEnd => old_.effectiveEnd != new_.effectiveEnd
    case TierRule => old_.tierRule != new_.tierRule
    case StateField => old_.state != new_.state
    case ReviewedBy => old_.reviewedBy != new_.reviewedBy
    case ReviewedAt => old_.reviewedAt != new_.reviewedAt
    case RateVersion => old_.rateVersion != new_.rateVersion
    case AccountId => old_.account != new_.account
    case PublishedAt => old_.publishedAt != new_.publishedAt
    case ActivatedAt => old_.activatedAt != new_.activatedAt
  }

  function AllFields(): set<Field> {
    {CandidateId, HomeId, PlanName, EffectiveStart, EffectiveEnd, TierRule, StateField,
     ReviewedBy, ReviewedAt, RateVersion, AccountId, PublishedAt, ActivatedAt}
  }

  function Changed(old_: Review, new_: Review): set<Field> {
    set f | f in AllFields() && Differs(f, old_, new_)
  }

  /** The fields a transition may change; None for a transition that does not exist. */
  function LegalFields(from: State, to: State): Option<set<Field>> {
    match (from, to)
    case (Reviewed, Reviewed) => Some({PlanName, EffectiveStart, EffectiveEnd, TierRule, ReviewedBy, ReviewedAt})
    case (Reviewed, Published) => Some({StateField, RateVersion, PublishedAt})
    case (Published, Activated) => Some({StateField, AccountId, ActivatedAt})
    case (Reviewed, Rejected) => Some({StateField})
    case _ => None
  }

  predicate ListenerAccepts(old_: Review, new_: Review) {
    var changed, legal := Changed(old_, new_), LegalFields(old_.state, new_.state);
    changed !! {CandidateId, HomeId} && legal.Some? && changed <= legal.value
  }

  // ----- the database trigger -----

  predicate TriggerAccepts(old_: Review, new_: Review) {
    && new_.candidate == old_.candidate
    && new_.home == old_.home
    && match (old_.state, new_.state)
       case (Reviewed, Reviewed) =>
         && new_.rateVersion == old_.rateVersion && new_.account == old_.account
         && new_.publishedAt == old_.publishedAt && new_.activatedAt == old_.activatedAt
       case (Reviewed, Published) =>
         && new_.planName == old_.planName && new_.effectiveStart == old_.effectiveStart
         && new_.effectiveEnd == old_.effectiveEnd && new_.reviewedBy == old_.reviewedBy
         && new_.reviewedAt == old_.reviewedAt && new_.account == old_.account && new_.activatedAt == old_.activatedAt
       case (Published, Activated) =>
         && new_.planName == old_.planName && new_.effectiveStart == old_.effectiveStart
         && new_.effectiveEnd == old_.effectiveEnd && new_.reviewedBy == old_.reviewedBy
         && new_.reviewedAt == old_.reviewedAt && new_.rateVersion == old_.rateVersion && new_.publishedAt == old_.publishedAt
       case (Reviewed, Rejected) =>
         && new_.planName == old_.planName && new_.effectiveStart == old_.effectiveStart
         && new_.effectiveEnd == old_.effectiveEnd && new_.reviewedBy == old_.reviewedBy
         && new_.reviewedAt == old_.reviewedAt && new_.rateVersion == old_.rateVersion && new_.account == old_.account
         && new_.publishedAt == old_.publishedAt && new_.activatedAt == old_.activatedAt
       case _ => false
  }

  predicate MayDelete(row: Review) {
    row.state == Rejected
  }

  /** The check constraint on what evidence each state carries. */
  predicate StateEvidence(r: Review) {
    match r.state
    case Reviewed =>
      && r.planName.Some? && r.effectiveStart.Some? && r.rateVersion.None? && r.account.None?
      && r.publishedAt.None? && r.activatedAt.None?
    case Published =>
      && r.planName.Some? && r.effectiveStart.Some? && r.rateVersion.Some? && r.account.None?
      && r.publishedAt.Some? && r.activatedAt.None?
    case Activated =>
      && r.planName.Some? && r.effectiveStart.Some? && r.rateVersion.Some? && r.account.Some?
      && r.publishedAt.Some? && r.activatedAt.Some?
    case Rejected =>
      r.rateVersion.None? && r.account.None? && r.publishedAt.None? && r.activatedAt.None?
  }

  /** Version and publication time are there exactly from publication on, account and activation time exactly on activation, plan and start unless rejected. */
  lemma {:induction false} EvidenceTracksState(r: Review)
    ensures StateEvidence(r) <==>
              && (r.rateVersion.Some? <==> r.state in {Published, Activated}) && (r.publishedAt.Some? <==> r.state in {Published, Activated})
              && (r.account.Some? <==> r.state == Activated) && (r.activatedAt.Some? <==> r.state == Activated)
              && (r.state != Rejected ==> r.planName.Some? && r.effectiveStart.Some?)
  {
  }

  // ----- the two guards compared -----

  /** The fields outside a set are kept, spelled out. */
  predicate KeptOutside(legal: set<Field>, old_: Review, new_: Review) {
    && (CandidateId in legal || new_.candidate == old_.candidate)
    && (HomeId in legal || new_.home == old_.home)
    && (PlanName in legal || new_.planName == old_.planName)
    && (EffectiveStart in legal || new_.effectiveStart == old_.effectiveStart)
    && (EffectiveEnd in legal || new_.effectiveEnd == old_.effectiveEnd)
    && (TierRule in legal || new_.tierRule == old_.tierRule)
    && (StateField in legal || new_.state == old_.state)
    && (ReviewedBy in legal || new_.reviewedBy == old_.reviewedBy)
    && (ReviewedAt in legal || new_.reviewedAt == old_.reviewedAt)
    && (RateVersion in legal || new_.rateVersion == old_.rateVersion)
    && (AccountId in legal || new_.account == old_.account)
    && (PublishedAt in legal || new_.publishedAt == old_.publishedAt)
    && (ActivatedAt in legal || new_.activatedAt == old_.activatedAt)
  }

  lemma {:induction false} EveryFieldListed(f: Field)
    ensures f in AllFields()
  {
  }

  lemma {:induction false} ChangedWithin(old_: Review, new_: Review, legal: set<Field>)
    ensures Changed(old_, new_) <= legal <==> KeptOutside(legal, old_, new_)
  {
    forall f ensures f in Changed(old_, new_) <==> Differs(f, old_, new_) {
      EveryFieldListed(f);
    }
    hide AllFields, Changed;
    if Changed(old_, new_) <= legal {
      forall f ensures f in legal || !Differs(f, old_, new_) {
        assert f in Changed(old_, new_) <==> Differs(f, old_, new_);
      }
      SpelledOut(old_, new_, legal);
    }
  }

  lemma {:induction false} SpelledOut(old_: Review, new_: Review, legal: set<Field>)
    requires forall f :: f in legal || !Differs(f, old_, new_)
    ensures KeptOutside(legal, old_, new_)
  {
    assert CandidateId in legal || !Differs(CandidateId, old_, new_);
    assert HomeId in legal || !Differs(HomeId, old_, new_);
    assert PlanName in legal || !Differs(PlanName, old_, new_);
    assert EffectiveStart in legal || !Differs(EffectiveStart, old_, new_);
    assert EffectiveEnd in legal || !Differs(EffectiveEnd, old_, new_);
    assert TierRule in legal || !Differs(TierRule, old_, new_);
    assert StateField in legal || !Differs(StateField, old_, new_);
    assert ReviewedBy in legal || !Differs(ReviewedBy, old_, new_);
    assert ReviewedAt in legal || !Differs(ReviewedAt, old_, new_);
    assert RateVersion in legal || !Differs(RateVersion, old_, new_);
    assert AccountId in legal || !Differs(AccountId, old_, new_);
    assert PublishedAt in legal || !Differs(PublishedAt, old_, new_);
    assert ActivatedAt in legal || !Differs(ActivatedAt, old_, new_);
  }

  /** The listener accepts exactly what the trigger accepts with the tier rule kept outside of review. */
  lemma {:induction false} ListenerIsTriggerPlusTierRule(old_: Review, new_: Review)
    ensures ListenerAccepts(old_, new_) <==>
              TriggerAccepts(old_, new_) && (new_.tierRule == old_.tierRule || (old_.state == Reviewed && new_.state == Reviewed))
  {
    var legal := LegalFields(old_.state, new_.state);
    if legal.Some? {
      ChangedWithin(old_, new_, legal.value);
      assert Changed(old_, new_) <= legal.value ==> Changed(old_, new_) !! {CandidateId, HomeId};
      hide Changed;
    }
  }

  /** So nothing the application may do is refused by the database. */
  lemma {:induction false} ListenerWithinTrigger(old_: Review, new_: Review)
    requires ListenerAccepts(old_, new_)
    ensures TriggerAccepts(old_, new_)
  {
    ListenerIsTriggerPlusTierRule(old_, new_);
  }

  /** The trigger alone lets the tier rule of a published plan change on activation. */
  lemma {:induction false} TriggerMissesTierRule(r: Review, account: int, at: int, tier: Option<int>)
    requires r.state == Published && StateEvidence(r) && tier != r.tierRule
    ensures var next := r.(state := Activated, account := Some(account), activatedAt := Some(at), tierRule := tier);
            TriggerAccepts(r, next) && StateEvidence(next) && !ListenerAccepts(r, next)
  {
    var next := r.(state := Activated, account := Some(account), activatedAt := Some(at), tierRule := tier);
    ListenerIsTriggerPlusTierRule(r, next);
  }

  // ----- whole lifecycles -----

  /** Successive versions of a row, each accepted by the trigger and the check constraint. */
  ghost predicate History(rows: seq<Review>) {
    && (forall i :: 0 <= i < |rows| ==> StateEvidence(rows[i]))
    && (forall i, j :: 0 <= i && j == i + 1 < |rows| ==> TriggerAccepts(rows[i], rows[j]))
  }

  /** Successive versions that the application itself wrote. */
  ghost predicate ListenerHistory(rows: seq<Review>) {
    History(rows) && forall i, j :: 0 <= i && j == i + 1 < |rows| ==> ListenerAccepts(rows[i], rows[j])
  }

  function Provenance(r: Review): (int, int, Option<string>, Option<int>, Option<int>, int, int, Option<int>, Option<int>) {
    (r.candidate, r.home, r.planName, r.effectiveStart, r.effectiveEnd, r.reviewedBy, r.reviewedAt, r.rateVersion, r.publishedAt)
  }

  /** From publication on, plan, dates, reviewing user, version and publication time are frozen. */
  lemma {:induction false} PublicationFreezes(rows: seq<Review>, i: nat, j: nat)
    requires History(rows) && i <= j < |rows| && rows[i].state in {Published, Activated}
    ensures rows[j].state in {Published, Activated} && Provenance(rows[j]) == Provenance(rows[i])
    decreases j - i
  {
    if i < j {
      PublicationFreezes(rows, i, j - 1);
      assert TriggerAccepts(rows[j - 1], rows[j]);
    }
  }

  /** Under the application's own listener the tier rule is frozen as well. */
  lemma {:induction false} PublicationFreezesTierRule(rows: seq<Review>, i: nat, j: nat)
    requires ListenerHistory(rows) && i <= j < |rows| && rows[i].state in {Published, Activated}
    ensures rows[j].tierRule == rows[i].tierRule
    decreases j - i
  {
    if i < j {
      PublicationFreezesTierRule(rows, i, j - 1);
      PublicationFreezes(rows, i, j - 1);
      assert ListenerAccepts(rows[j - 1], rows[j]);
      ListenerIsTriggerPlusTierRule(rows[j - 1], rows[j]);
    }
  }

  /** An activated or rejected row is the last version of its history. */
  lemma {:induction false} TerminalRowsNeverChange(rows: seq<Review>, i: nat)
    requires History(rows) && i < |rows| && rows[i].state in {Activated, Rejected}
    ensures i == |rows| - 1
  {
    assert i + 1 < |rows| ==> TriggerAccepts(rows[i], rows[i + 1]);
  }

  /** Only a review that never led to a rate can be deleted, and never after publication. */
  lemma {:induction false} PublishedRowsCannotBeDeleted(rows: seq<Review>, i: nat, j: nat)
    requires History(rows) && i <= j < |rows| && rows[i].state in {Published, Activated}
    ensures !MayDelete(rows[j])
  {
    PublicationFreezes(rows, i, j);
  }
}
