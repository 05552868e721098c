/**
 * The free-tier quota rules of the subscription provider: the daily scan and
 * AI-creation allowance, the cumulative PDF allowance, the counter update
 * that `incrementQuota` upserts into the `user_quotas` table, and the tier
 * mirrored from the store's entitlements. The Supabase table is an in-memory
 * map; "today", `isPro` and the outcome of each database call are parameters.
 */
module Subscription {
  import opened Wrappers

  /** `'scan' | 'ai' | 'pdf'`. */
  datatype QuotaKind = Scan | Ai | Pdf

  /** Uses per day of each daily kind for a free user. */
  const DailyLimit: int := 1
  /** PDF uploads allowed to a free user, over all days. */
  const PdfLimit: int := 10
  /** The PostgREST code `.single()` reports when no row matched. */
  const NoRowsCode: string := "PGRST116"

  /** A `user_quotas` row; `None` is a `null` column. */
  datatype QuotaRow = QuotaRow(
    lastResetDate: Option<string>,
    feedScans: Option<int>,
    aiCreations: Option<int>,
    pdfUploads: Option<int>)

  /** `count || 0`. */
  function OrZero(count: Option<int>): int {
    if count.Some? then count.value else 0
  }

  /** No counter of the row is negative. */
  predicate NonNegative(row: QuotaRow) {
    OrZero(row.feedScans) >= 0 && OrZero(row.aiCreations) >= 0 && OrZero(row.pdfUploads) >= 0
  }

  /** What `.select(...).eq('user_id', id).single()` returned: the row, and the error code if any. */
  datatype Lookup = Lookup(data: Option<QuotaRow>, errorCode: Option<string>)

  // ---------------------------------------------------------------------------
  // Reference definitions: what the stored row says about usage
  // ---------------------------------------------------------------------------

  /**
   * The uses of a daily kind recorded for `today`: nothing unless there is a
   * row whose counters were last reset today.
   */
  function UsedToday(data: Option<QuotaRow>, today: string, kind: QuotaKind): (used: int)
    requires kind != Pdf
    ensures used != 0 ==> data.Some? && data.value.lastResetDate == Some(today)
  {
    match data
    case None => 0
    case Some(row) =>
      if row.lastResetDate != Some(today) then 0
      else if kind == Scan then OrZero(row.feedScans)
      else OrZero(row.aiCreations)
  }

  /** The PDF uploads recorded over all days. */
  function PdfCount(data: Option<QuotaRow>): int {
    if data.None? then 0 else OrZero(data.value.pdfUploads)
  }

  /** 1 for the kind being counted, 0 for the others. */
  function Bump(counted: QuotaKind, kind: QuotaKind): int {
    if counted == kind then 1 else 0
  }

  /** The row after one more use of `kind` on `today`: the day's counters and the PDF total, each raised by its share. */
  function IncrementedRow(data: Option<QuotaRow>, today: string, kind: QuotaKind): QuotaRow {
    QuotaRow(
      Some(today),
      Some(UsedToday(data, today, Scan) + Bump(Scan, kind)),
      Some(UsedToday(data, today, Ai) + Bump(Ai, kind)),
      Some(PdfCount(data) + Bump(Pdf, kind)))
  }

  // ---------------------------------------------------------------------------
  // checkQuota / checkPdfQuota
  // ---------------------------------------------------------------------------

  /**
   * `checkQuota(userId, type)` for a daily kind: pro users pass; a lookup error
   * other than "no rows" refuses; otherwise a free user passes while the uses
   * recorded for today are below the daily limit.
   */
  function CheckQuota(isPro: bool, lookup: Lookup, today: string, kind: QuotaKind): (allowed: bool)
    requires kind != Pdf
    ensures isPro ==> allowed
    ensures !isPro && lookup.errorCode.Some? && lookup.errorCode.value != NoRowsCode ==> !allowed
    ensures !isPro && (lookup.errorCode.None? || lookup.errorCode.value == NoRowsCode) ==>
              (allowed <==> UsedToday(lookup.data, today, kind) < DailyLimit)
    ensures (!isPro && (lookup.errorCode.None? || lookup.errorCode.value == NoRowsCode) &&
             (lookup.data.None? || lookup.data.value.lastResetDate != Some(today))) ==> allowed
  {
    if isPro then true
    else if lookup.errorCode.Some? && lookup.errorCode.value != NoRowsCode then false
    else if lookup.data.None? then true
    else if lookup.data.value.lastResetDate != Some(today) then true
    else if kind == Scan then OrZero(lookup.data.value.feedScans) < DailyLimit
    else if kind == Ai then OrZero(lookup.data.value.aiCreations) < DailyLimit
    else false
  }

  /** `checkPdfQuota(userId)`: pro users pass; a free user passes while the PDF total is below ten. Lookup errors are ignored. */
  function CheckPdfQuota(isPro: bool, data: Option<QuotaRow>): (allowed: bool)
    ensures isPro ==> allowed
    ensures !isPro ==> (allowed <==> PdfCount(data) < PdfLimit)
  {
    isPro || (if data.Some? then OrZero(data.value.pdfUploads) else 0) < PdfLimit
  }

  // ---------------------------------------------------------------------------
  // incrementQuota
  // ---------------------------------------------------------------------------

  /**
   * The object `incrementQuota` upserts (besides `user_id`). `lastResetDate`
   * is `None` when the update leaves that column out.
   */
  datatype QuotaUpdate = QuotaUpdate(lastResetDate: Option<string>, feedScans: int, aiCreations: int, pdfUploads: int)

  /**
   * An upsert on `user_id` into the stored row `existing`: the columns the
   * update carries overwrite, the ones it leaves out keep their stored value
   * (`null` in a new row).
   */
  function Upsert(existing: Option<QuotaRow>, updates: QuotaUpdate): (row: QuotaRow)
    ensures row.feedScans == Some(updates.feedScans) && row.aiCreations == Some(updates.aiCreations)
    ensures row.pdfUploads == Some(updates.pdfUploads)
    ensures updates.lastResetDate.Some? ==> row.lastResetDate == updates.lastResetDate
    ensures updates.lastResetDate.None? && existing.Some? ==> row.lastResetDate == existing.value.lastResetDate
  {
    QuotaRow(
      if updates.lastResetDate.Some? then updates.lastResetDate
      else if existing.Some? then existing.value.lastResetDate
      else None,
      Some(updates.feedScans), Some(updates.aiCreations), Some(updates.pdfUploads))
  }

  /**
   * The `updates` object `incrementQuota` builds from the row it read: on a new
   * day, or with no row, the date becomes today, the daily counters restart
   * and the PDF total is carried over; on the same day each counter is raised
   * by its share and the date is left out. Upserted over that row, it records
   * exactly one more use of `kind`.
   */
  method PlanIncrement(data: Option<QuotaRow>, today: string, kind: QuotaKind) returns (updates: QuotaUpdate)
    ensures Upsert(data, updates) == IncrementedRow(data, today, kind)
    ensures updates.lastResetDate.None? ==> data.Some? && data.value.lastResetDate == Some(today)
  {
    if data.None? || data.value.lastResetDate != Some(today) {
      updates := QuotaUpdate(
        Some(today),
        if kind == Scan then 1 else 0,
        if kind == Ai then 1 else 0,
        (if data.Some? then OrZero(data.value.pdfUploads) else 0) + (if kind == Pdf then 1 else 0));
    } else {
      var row := data.value;
      updates := QuotaUpdate(
        None,
        OrZero(row.feedScans) + (if kind == Scan then 1 else 0),
        OrZero(row.aiCreations) + (if kind == Ai then 1 else 0),
        OrZero(row.pdfUploads) + (if kind == Pdf then 1 else 0));
    }
  }

  /** The `user_quotas` table, keyed by user id. */
  class QuotaTable {
    var rows: map<string, QuotaRow>

    constructor(rows: map<string, QuotaRow>)
      ensures this.rows == rows
    {
      this.rows := rows;
    }

    /** The stored row of a user, if any. */
    function Stored(userId: string): Option<QuotaRow>
      reads this
    {
      if userId in rows then Some(rows[userId]) else None
    }

    /** Every stored row has non-negative counters. */
    predicate Valid()
      reads this
    {
      forall u :: u in rows ==> NonNegative(rows[u])
    }

    /**
     * `incrementQuota(userId, type)`. A pro user's daily uses are not counted,
     * PDF uploads are. A failed read yields no row, so the row is rebuilt as on
     * a new day with the PDF total restarted; a failed upsert changes nothing.
     * Only the user's own row changes.
     */
    method IncrementQuota(isPro: bool, userId: string, today: string, kind: QuotaKind, readFailed: bool, writeFailed: bool)
      requires Valid()
      modifies this
      ensures Valid()
      ensures (isPro && kind != Pdf) || writeFailed ==> rows == old(rows)
      ensures !(isPro && kind != Pdf) && !writeFailed ==>
                rows == old(rows)[userId := IncrementedRow(if readFailed then None else old(Stored(userId)), today, kind)]
    {
      if isPro && kind != Pdf {
        return;
      }
      var data := if readFailed then None else Stored(userId);
      var updates := PlanIncrement(data, today, kind);
      if !writeFailed {
        rows := rows[userId := Upsert(Stored(userId), updates)];
        IncrementKeepsNonNegative(data, today, kind);
      }
    }
  }

  // ---------------------------------------------------------------------------
  // Agreement between the checks and the increment
  // ---------------------------------------------------------------------------

  /** One increment raises the named kind's usage for today by one and leaves the other kinds' usage as it was. */
  lemma IncrementCountsOneUse(data: Option<QuotaRow>, today: string, kind: QuotaKind)
    ensures forall k :: k != Pdf ==>
              UsedToday(Some(IncrementedRow(data, today, kind)), today, k) == UsedToday(data, today, k) + Bump(k, kind)
    ensures PdfCount(Some(IncrementedRow(data, today, kind))) == PdfCount(data) + Bump(Pdf, kind)
  {
  }

  /** On a new day, or for a new row, the other daily counter starts again from zero while the PDF total carries over. */
  lemma NewDayRestartsDailyCounters(row: QuotaRow, today: string, kind: QuotaKind)
    requires row.lastResetDate != Some(today)
    ensures IncrementedRow(Some(row), today, kind).feedScans == Some(Bump(Scan, kind))
    ensures IncrementedRow(Some(row), today, kind).aiCreations == Some(Bump(Ai, kind))
    ensures IncrementedRow(Some(row), today, kind).pdfUploads == Some(OrZero(row.pdfUploads) + Bump(Pdf, kind))
    ensures IncrementedRow(Some(row), today, kind).lastResetDate == Some(today)
  {
  }

  /** Incrementing keeps counters non-negative. */
  lemma IncrementKeepsNonNegative(data: Option<QuotaRow>, today: string, kind: QuotaKind)
    requires data.None? || NonNegative(data.value)
    ensures NonNegative(IncrementedRow(data, today, kind))
  {
    IncrementCountsOneUse(data, today, kind);
  }

  /** After a free user's scan or AI creation is counted, the same check on the same day refuses. */
  lemma IncrementThenCheckRefuses(data: Option<QuotaRow>, today: string, kind: QuotaKind)
    requires kind != Pdf
    requires data.None? || NonNegative(data.value)
    ensures !CheckQuota(false, Lookup(Some(IncrementedRow(data, today, kind)), None), today, kind)
  {
    IncrementCountsOneUse(data, today, kind);
  }

  /** A free user who has not used a daily kind today may use it once. */
  lemma FreshDayAllowsOneUse(data: Option<QuotaRow>, today: string, kind: QuotaKind)
    requires kind != Pdf
    requires data.None? || data.value.lastResetDate != Some(today)
    ensures CheckQuota(false, Lookup(data, None), today, kind)
    ensures !CheckQuota(false, Lookup(Some(IncrementedRow(data, today, kind)), None), today, kind)
  {
    IncrementCountsOneUse(data, today, kind);
  }

  // ---------------------------------------------------------------------------
  // A run of increments
  // ---------------------------------------------------------------------------

  /** One `incrementQuota` call, with the day it happened on and the caller's tier. */
  datatype Increment = Increment(isPro: bool, today: string, kind: QuotaKind)

  /** Whether the call changes the row: a pro user's daily uses return early. */
  predicate Counted(e: Increment) {
    !(e.isPro && e.kind != Pdf)
  }

  /** The row after a run of increments that all read and wrote successfully. */
  function Replay(data: Option<QuotaRow>, events: seq<Increment>): Option<QuotaRow>
    decreases |events|
  {
    if events == [] then data
    else
      var next := if Counted(events[0]) then Some(IncrementedRow(data, events[0].today, events[0].kind)) else data;
      Replay(next, events[1..])
  }

  /** The counted uses of `kind` in a run. */
  function CountOf(events: seq<Increment>, kind: QuotaKind): nat {
    if events == [] then 0
    else (if Counted(events[0]) && events[0].kind == kind then 1 else 0) + CountOf(events[1..], kind)
  }

  /** The PDF total is cumulative: it rises by one per PDF upload whatever the days, pro or free. */
  lemma {:induction false} PdfCountCumulative(data: Option<QuotaRow>, events: seq<Increment>)
    ensures PdfCount(Replay(data, events)) == PdfCount(data) + CountOf(events, Pdf)
    decreases |events|
  {
    if events != [] {
      var e := events[0];
      var next := if Counted(e) then Some(IncrementedRow(data, e.today, e.kind)) else data;
      if Counted(e) {
        IncrementCountsOneUse(data, e.today, e.kind);
      }
      PdfCountCumulative(next, events[1..]);
    }
  }

  /** Within one day, a daily kind's usage is the stored usage plus the counted uses of the run. */
  lemma {:induction false} SameDayUsageAccumulates(data: Option<QuotaRow>, events: seq<Increment>, today: string, kind: QuotaKind)
    requires kind != Pdf
    requires forall i :: 0 <= i < |events| ==> events[i].today == today
    ensures UsedToday(Replay(data, events), today, kind) == UsedToday(data, today, kind) + CountOf(events, kind)
    decreases |events|
  {
    if events != [] {
      var e := events[0];
      var next := if Counted(e) then Some(IncrementedRow(data, e.today, e.kind)) else data;
      if Counted(e) {
        IncrementCountsOneUse(data, e.today, e.kind);
      }
      SameDayUsageAccumulates(next, events[1..], today, kind);
    }
  }

  /** Ten PDF uploads by any user exhaust a free user's PDF allowance for good. */
  lemma PdfAllowanceExhausted(data: Option<QuotaRow>, events: seq<Increment>)
    requires PdfCount(data) >= 0
    requires CountOf(events, Pdf) >= PdfLimit
    ensures !CheckPdfQuota(false, Replay(data, events))
  {
    PdfCountCumulative(data, events);
  }

  // ---------------------------------------------------------------------------
  // handleCustomerInfo
  // ---------------------------------------------------------------------------

  datatype Tier = Free | Pro

  /** The entitlement that unlocks the pro tier. */
  const ProEntitlement: string := "pro_access"

  /** The tier mirrored into `profiles.subscription_tier`. */
  function TierFor(hasProAccess: bool): (tier: Tier)
    ensures tier == Pro <==> hasProAccess
  {
    if hasProAccess then Pro else Free
  }

  /** The column value written for a tier. */
  function TierName(tier: Tier): (name: string)
    ensures name == "pro" <==> tier == Pro
    ensures name == "free" <==> tier == Free
  {
    match tier
    case Free => "free"
    case Pro => "pro"
  }

  /** The provider's state, and the `profiles` table's `subscription_tier` column it writes. */
  class Provider {
    var isPro: bool
    var isLoading: bool
    var profileTiers: map<string, Tier>

    /** The initial state: not pro, loading. */
    constructor(profileTiers: map<string, Tier>)
      ensures !isPro && isLoading && this.profileTiers == profileTiers
    {
      isPro := false;
      isLoading := true;
      this.profileTiers := profileTiers;
    }

    /**
     * `handleCustomerInfo(info)`: pro iff the active entitlements hold
     * `pro_access`, loading ends, and the signed-in user's existing profile row
     * (an `update ... eq('id', ...)` touches no missing row) takes the tier,
     * unless the update fails (`updateFailed`), which is only logged and leaves
     * the row as it was.
     */
    method HandleCustomerInfo(activeEntitlements: set<string>, signedInUser: Option<string>, updateFailed: bool)
      modifies this
      ensures isPro <==> ProEntitlement in activeEntitlements
      ensures !isLoading
      ensures signedInUser.Some? && signedInUser.value in old(profileTiers) && !updateFailed ==>
                profileTiers == old(profileTiers)[signedInUser.value := TierFor(isPro)]
      ensures !(signedInUser.Some? && signedInUser.value in old(profileTiers)) || updateFailed ==>
                profileTiers == old(profileTiers)
    {
      var hasProAccess := ProEntitlement in activeEntitlements;
      isPro := hasProAccess;
      isLoading := false;
      if signedInUser.Some? && signedInUser.value in profileTiers && !updateFailed {
        profileTiers := profileTiers[signedInUser.value := TierFor(hasProAccess)];
      }
    }
  }
}
