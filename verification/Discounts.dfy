/** Custom discounts: the rows of all kindergartens, the statements the repository
    runs on them, and what each service call does as a whole. */
module Discounts {
  import opened Options

  type Id = string

  datatype Status = Draft | Active | Paused | Cancelled | Expired

  datatype TargetType = Everyone | Groups | Children | TariffTypes | AgeRange

  /** A conditions tree, with the verdict of the conditions schema on it. */
  datatype Conditions = Conditions(tree: string, wellFormed: bool)

  /** The terms of a discount; money is in hundredths of a tenge. */
  datatype Terms = Terms(
    name: string, description: Option<string>, discountType: string, amount: int, conditions: Conditions,
    targetType: TargetType, targetIds: Option<seq<Id>>, validFrom: int, validUntil: Option<int>,
    maxUsesPerChild: Option<int>, totalMaxUses: Option<int>, priority: int, stackable: bool,
    notifyOnActivation: bool, notificationTitle: Option<string>, notificationBody: Option<string>)

  datatype TermsPatch = TermsPatch(
    name: Patch<string>, description: Patch<Option<string>>, discountType: Patch<string>, amount: Patch<int>,
    conditions: Patch<Conditions>, targetType: Patch<TargetType>, targetIds: Patch<Option<seq<Id>>>,
    validFrom: Patch<int>, validUntil: Patch<Option<int>>, maxUsesPerChild: Patch<Option<int>>,
    totalMaxUses: Patch<Option<int>>, priority: Patch<int>, stackable: Patch<bool>,
    notifyOnActivation: Patch<bool>, notificationTitle: Patch<Option<string>>,
    notificationBody: Patch<Option<string>>)

  function Merge(t: Terms, p: TermsPatch): Terms {
    Terms(p.name.Or(t.name), p.description.Or(t.description), p.discountType.Or(t.discountType),
          p.amount.Or(t.amount), p.conditions.Or(t.conditions), p.targetType.Or(t.targetType),
          p.targetIds.Or(t.targetIds), p.validFrom.Or(t.validFrom), p.validUntil.Or(t.validUntil),
          p.maxUsesPerChild.Or(t.maxUsesPerChild), p.totalMaxUses.Or(t.totalMaxUses), p.priority.Or(t.priority),
          p.stackable.Or(t.stackable), p.notifyOnActivation.Or(t.notifyOnActivation),
          p.notificationTitle.Or(t.notificationTitle), p.notificationBody.Or(t.notificationBody))
  }

  datatype Discount = Discount(kindergarten: Id, terms: Terms, usedCount: int, status: Status)

  datatype Announcement = Announcement(
    kindergarten: Id, discountId: Id, name: string, targetChildren: set<Id>, title: string, body: string)

  /** The table, the outbox, and the ids ever returned as active. */
  datatype Book = Book(rows: map<Id, Discount>, outbox: seq<Announcement>, seen: set<Id>)

  const EMPTY: Book := Book(map[], [], {})

  datatype Error =
    | NotFound | StatusInvalid(status: Status, operation: string) | DuplicateKey | CheckViolated | OutOfRange
    | AmountInvalid | ValidityInvalid | PriorityInvalid | TargetInvalid(reason: string) | ConditionsInvalid
    | ResolverFailed

  // ── Validation ──────────────────────────────────────────────────────────

  predicate ValidityHolds(t: Terms) { t.validUntil.None? || t.validUntil.value > t.validFrom }

  /** The CHECK constraints of the table, which every stored row meets. */
  predicate MeetsChecks(t: Terms) { t.amount > 0 && ValidityHolds(t) && t.priority >= 0 }

  // The ranges of the columns: integer, numeric(10,2) and timestamptz.
  const INT_MAX: int := 0x7FFF_FFFF
  const AMOUNT_MAX: int := 9_999_999_999
  const TIMESTAMP_MIN: int := -210_866_803_200_000
  const TIMESTAMP_END: int := 9_224_318_016_000_000

  predicate FitsInt(n: int) { -INT_MAX - 1 <= n <= INT_MAX }

  predicate FitsAmount(n: int) { -AMOUNT_MAX <= n <= AMOUNT_MAX }

  predicate FitsTimestamp(t: int) { TIMESTAMP_MIN <= t < TIMESTAMP_END }

  /** Terms the columns can hold. */
  predicate InRange(t: Terms) {
    && FitsAmount(t.amount) && FitsInt(t.priority) && FitsTimestamp(t.validFrom)
    && (t.validUntil.Some? ==> FitsTimestamp(t.validUntil.value))
    && (t.maxUsesPerChild.Some? ==> FitsInt(t.maxUsesPerChild.value))
    && (t.totalMaxUses.Some? ==> FitsInt(t.totalMaxUses.value))
  }

  /** Parameters the statement can bind, before it looks at any row; an amount
      is only cut to its column when a row is written. */
  predicate Binds(p: TermsPatch) {
    && (p.priority.Set? ==> FitsInt(p.priority.value))
    && (p.validFrom.Set? ==> FitsTimestamp(p.validFrom.value))
    && (p.validUntil.Set? && p.validUntil.value.Some? ==> FitsTimestamp(p.validUntil.value.value))
    && (p.maxUsesPerChild.Set? && p.maxUsesPerChild.value.Some? ==> FitsInt(p.maxUsesPerChild.value.value))
    && (p.totalMaxUses.Set? && p.totalMaxUses.value.Some? ==> FitsInt(p.totalMaxUses.value.value))
  }

  predicate NoIds(t: Terms) { t.targetIds.None? || t.targetIds.value == [] }

  /** Ids are absent for everyone and present for lists of groups, children or tariffs. */
  predicate TargetShaped(t: Terms) {
    match t.targetType
    case Everyone => NoIds(t)
    case AgeRange => true
    case _ => !NoIds(t)
  }

  /** Terms an aggregate can be built from. */
  predicate Acceptable(t: Terms) { MeetsChecks(t) && TargetShaped(t) && t.conditions.wellFormed }

  /** Terms that can be stored and read back. */
  predicate Storable(t: Terms) { Acceptable(t) && InRange(t) }

  /** What building the aggregate throws, in order. */
  function AggregateRefusal(t: Terms): (refusal: Option<Error>)
    ensures refusal.None? <==> Acceptable(t)
  {
    if t.amount <= 0 then Some(AmountInvalid)
    else if !ValidityHolds(t) then Some(ValidityInvalid)
    else if t.priority < 0 then Some(PriorityInvalid)
    else if t.targetType.Everyone? && !NoIds(t) then Some(TargetInvalid("target_ids_must_be_empty"))
    else if !TargetShaped(t) then Some(TargetInvalid("target_ids_required"))
    else if !t.conditions.wellFormed then Some(ConditionsInvalid)
    else None
  }

  /** The fields whose presence in a patch makes `update` build the aggregate. */
  predicate Revalidates(p: TermsPatch) {
    p.conditions.Set? || p.targetType.Set? || p.targetIds.Set? || p.amount.Set? || p.validFrom.Set?
    || p.validUntil.Set?
  }

  /** The terms `update` validates: those the transient aggregate takes from
      the patch, the rest from the loaded row. */
  function Transient(t: Terms, p: TermsPatch): Terms {
    t.(name := p.name.Or(t.name), description := p.description.Or(t.description),
       discountType := p.discountType.Or(t.discountType), amount := p.amount.Or(t.amount),
       conditions := p.conditions.Or(t.conditions), targetType := p.targetType.Or(t.targetType),
       targetIds := p.targetIds.Or(t.targetIds), validFrom := p.validFrom.Or(t.validFrom),
       validUntil := p.validUntil.Or(t.validUntil))
  }

  // ── Statements ──────────────────────────────────────────────────────────

  /** `WHERE id = $1 AND kindergarten_id = $2`. */
  function Find(b: Book, kg: Id, id: Id): Option<Discount> {
    if id in b.rows && b.rows[id].kindergarten == kg then Some(b.rows[id]) else None
  }

  function SetRow(b: Book, id: Id, d: Discount): Book { b.(rows := b.rows[id := d]) }

  predicate Matches(b: Book, kg: Id, id: Id, from: set<Status>) {
    Find(b, kg, id).Some? && b.rows[id].status in from
  }

  const ANY_STATUS: set<Status> := {Draft, Active, Paused, Cancelled, Expired}

  /** What reading a row back throws: the mapper looks at the conditions first. */
  function HydrationRefusal(t: Terms): (refusal: Option<Error>)
    ensures refusal.None? <==> Acceptable(t)
  {
    if !t.conditions.wellFormed then Some(ConditionsInvalid) else AggregateRefusal(t)
  }

  /** `update`: the patch lands if the row has an expected status; the row is
      then read back through the aggregate, and a refusal undoes the statement. */
  function UpdateRow(b: Book, kg: Id, id: Id, p: TermsPatch, expected: set<Status>): Result<Book, Error> {
    if !Binds(p) then Err(OutOfRange)
    else if !Matches(b, kg, id, expected) then Ok(b)
    else
      var merged := Merge(b.rows[id].terms, p);
      if !FitsAmount(merged.amount) then Err(OutOfRange)
      else if !MeetsChecks(merged) then Err(CheckViolated)
      else if HydrationRefusal(merged).Some? then Err(HydrationRefusal(merged).value)
      else Ok(SetRow(b, id, b.rows[id].(terms := merged)))
  }

  /** `transitionStatus`. */
  function Transition(b: Book, kg: Id, id: Id, from: set<Status>, to: Status): Book {
    if !Matches(b, kg, id, from) then b else SetRow(b, id, b.rows[id].(status := to))
  }

  predicate HasRoom(d: Discount) {
    d.terms.totalMaxUses.None? || d.usedCount < d.terms.totalMaxUses.value
  }

  predicate CanReserve(b: Book, kg: Id, id: Id) { Find(b, kg, id).Some? && HasRoom(b.rows[id]) }

  /** `tryReserveUsage`; without a cap the counter may come to its column's end. */
  function Reserve(b: Book, kg: Id, id: Id): Result<Book, Error> {
    if !CanReserve(b, kg, id) then Ok(b)
    else if b.rows[id].usedCount == INT_MAX then Err(OutOfRange)
    else Ok(SetRow(b, id, b.rows[id].(usedCount := b.rows[id].usedCount + 1)))
  }

  /** `releaseUsage`. */
  function Release(b: Book, kg: Id, id: Id): Book {
    if Find(b, kg, id).None? then b
    else
      var used := b.rows[id].usedCount - 1;
      SetRow(b, id, b.rows[id].(usedCount := if used > 0 then used else 0))
  }

  /** A discount `findActiveCustomDiscounts` returns at `now`. */
  predicate Applies(d: Discount, kg: Id, now: int) {
    && d.kindergarten == kg && d.status.Active? && d.terms.validFrom <= now
    && (d.terms.validUntil.None? || d.terms.validUntil.value > now)
  }

  function ActiveIds(b: Book, kg: Id, now: int): set<Id> {
    set id | id in b.rows && Applies(b.rows[id], kg, now)
  }

  /** A row the expiry statement flips; it takes paused rows too. */
  predicate Overdue(d: Discount, kg: Id, now: int) {
    && d.kindergarten == kg && (d.status.Active? || d.status.Paused?)
    && d.terms.validUntil.Some? && d.terms.validUntil.value <= now
  }

  function OverdueIds(b: Book, kg: Id, now: int): set<Id> {
    set id | id in b.rows && Overdue(b.rows[id], kg, now)
  }

  /** `markExpiredBatch`. */
  function Expire(b: Book, kg: Id, now: int): Book {
    b.(rows := map id | id in b.rows ::
      if Overdue(b.rows[id], kg, now) then b.rows[id].(status := Expired) else b.rows[id])
  }

  // ── Service calls ───────────────────────────────────────────────────────

  function CreateCall(b: Book, kg: Id, id: Id, t: Terms): Result<Book, Error> {
    match AggregateRefusal(t)
    case Some(error) => Err(error)
    case None =>
      if !InRange(t) then Err(OutOfRange)
      else if id in b.rows then Err(DuplicateKey)
      else Ok(SetRow(b, id, Discount(kg, t, 0, Draft)))
  }

  /** The first half of `update`: load the row and validate the merged terms. */
  function CheckUpdate(b: Book, kg: Id, id: Id, p: TermsPatch): Option<Error> {
    match Find(b, kg, id)
    case None => Some(NotFound)
    case Some(d) =>
      if !d.status.Draft? then Some(StatusInvalid(d.status, "update"))
      else if Revalidates(p) then AggregateRefusal(Transient(d.terms, p))
      else None
  }

  /** What a conditional statement that matched no row is reported as. */
  function Missed(b: Book, kg: Id, id: Id, operation: string): Error {
    match Find(b, kg, id)
    case None => NotFound
    case Some(d) => StatusInvalid(d.status, operation)
  }

  /** The second half: the conditional statement, on whatever the row is by then. */
  function ApplyUpdate(b: Book, kg: Id, id: Id, p: TermsPatch): Result<Book, Error> {
    if Binds(p) && !Matches(b, kg, id, {Draft}) then Err(Missed(b, kg, id, "update"))
    else UpdateRow(b, kg, id, p, {Draft})
  }

  function TransitionCall(b: Book, kg: Id, id: Id, from: set<Status>, to: Status, operation: string)
    : Result<Book, Error>
  {
    if Matches(b, kg, id, from) then Ok(Transition(b, kg, id, from, to)) else Err(Missed(b, kg, id, operation))
  }

  predicate Announces(t: Terms) {
    t.notifyOnActivation && t.notificationTitle.Some? && t.notificationBody.Some?
  }

  function AnnouncementOf(kg: Id, id: Id, t: Terms, targets: set<Id>): Announcement
    requires Announces(t)
  {
    Announcement(kg, id, t.name, targets, t.notificationTitle.value, t.notificationBody.value)
  }

  /** `activate`, one transaction: `targets` is what the resolver would answer,
      None when it throws. */
  function ActivateCall(b: Book, kg: Id, id: Id, targets: Option<set<Id>>): Result<Book, Error> {
    if !Matches(b, kg, id, {Draft}) then Err(Missed(b, kg, id, "activate"))
    else
      var flipped := Transition(b, kg, id, {Draft}, Active);
      var t := b.rows[id].terms;
      if !Announces(t) then Ok(flipped)
      else if targets.None? then Err(ResolverFailed)
      else if targets.value == {} then Ok(flipped)
      else Ok(flipped.(outbox := b.outbox + [AnnouncementOf(kg, id, t, targets.value)]))
  }

  // ── Steps that actors interleave ────────────────────────────────────────

  datatype Step =
    | Create(kg: Id, id: Id, terms: Terms)
    | Update(kg: Id, id: Id, patch: TermsPatch)
    | Activate(kg: Id, id: Id, targets: Option<set<Id>>)
    | Pause(kg: Id, id: Id)
    | Resume(kg: Id, id: Id)
    | Cancel(kg: Id, id: Id)
    | ExpireBatch(kg: Id, now: int)
    | FindActive(kg: Id, now: int)
    | TryReserve(kg: Id, id: Id)
    | ReleaseSlot(kg: Id, id: Id)

  function Effect(b: Book, s: Step): Result<Book, Error> {
    match s
    case Create(kg, id, terms) => CreateCall(b, kg, id, terms)
    case Update(kg, id, p) => ApplyUpdate(b, kg, id, p)
    case Activate(kg, id, targets) => ActivateCall(b, kg, id, targets)
    case Pause(kg, id) => TransitionCall(b, kg, id, {Active}, Paused, "pause")
    case Resume(kg, id) => TransitionCall(b, kg, id, {Paused}, Active, "resume")
    case Cancel(kg, id) => TransitionCall(b, kg, id, {Draft, Active, Paused}, Cancelled, "cancel")
    case ExpireBatch(kg, now) => Ok(Expire(b, kg, now))
    case FindActive(kg, now) => Ok(b.(seen := b.seen + ActiveIds(b, kg, now)))
    case TryReserve(kg, id) => Reserve(b, kg, id)
    case ReleaseSlot(kg, id) => Ok(Release(b, kg, id))
  }

  /** Invoicing reserves only a discount it was once given as active. */
  predicate Enabled(b: Book, s: Step) { s.TryReserve? ==> s.id in b.seen }

  /** A step that is not enabled does not happen; one that throws rolls back. */
  function Next(b: Book, s: Step): Book {
    if !Enabled(b, s) then b
    else match Effect(b, s) case Ok(after) => after case Err(_) => b
  }

  function RunFrom(b: Book, steps: seq<Step>): Book {
    if steps == [] then b else Next(RunFrom(b, steps[..|steps| - 1]), steps[|steps| - 1])
  }

  function Run(steps: seq<Step>): Book { RunFrom(EMPTY, steps) }
}
