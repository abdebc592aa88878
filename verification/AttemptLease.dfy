/**
  The check that an attempt's lease outlasts everything an attempt may wait for. The program
  computes with saturating 64-bit numbers and skips rooms the global check already covers;
  what it should decide is a strict inequality over the integers for every room.
*/
module AttemptLease {
  import opened Common
  import opened TimeBudgets

  const U64_MAX: nat := 0xFFFF_FFFF_FFFF_FFFF

  type u64 = n: nat | n <= U64_MAX

  function SaturatingAdd(a: u64, b: u64): u64 {
    Min(a + b, U64_MAX)
  }

  function SaturatingMul(a: u64, b: u64): u64 {
    Min(a * b, U64_MAX)
  }

  const WEBEX_REQUEST_TIMEOUT_SECS: u64 := 30
  const EVENT_HYDRATION_NOT_FOUND_RETRY_SECS: u64 := 5
  const DIRECT_REPLY_MARKER_SEARCH_MAX_PAGES: u64 := 3
  const DIRECT_NON_PAGED_WEBEX_REQUESTS_PER_ATTEMPT: u64 := 3
  const WEBEX_REQUESTS_PER_ATTEMPT: u64 := DIRECT_NON_PAGED_WEBEX_REQUESTS_PER_ATTEMPT + DIRECT_REPLY_MARKER_SEARCH_MAX_PAGES * 2
  const FOLLOWUP_NON_PAGED_WEBEX_REQUESTS_PER_ATTEMPT: u64 := 3
  const WEBEX_LIST_PAGE_SIZE: u64 := 100
  const FOLLOWUP_MARKER_SEARCH_MAX_MESSAGES: u64 := WEBEX_LIST_PAGE_SIZE
  const FOLLOWUP_REPLY_MARKER_SEARCH_MIN_MESSAGES: u64 := WEBEX_LIST_PAGE_SIZE * 3
  const STAGING_SOURCE_MARKER_SEARCH_PAGES: u64 := 3
  const STAGING_WEBEX_REQUESTS_PER_ATTEMPT: u64 := STAGING_SOURCE_MARKER_SEARCH_PAGES + 1 + STAGING_SOURCE_MARKER_SEARCH_PAGES

  datatype Codex = Codex(timeout: u64, isolated: bool)

  datatype CodexPatch = CodexPatch(timeout: Option<u64>, isolated: Option<bool>)

  datatype Jenkins = Jenkins(enabled: bool, timeout: u64, maxUrls: u64)

  datatype Followup = Followup(enabled: bool, maxThreadMessages: u64)

  datatype Room = Room(codex: Option<CodexPatch>, jenkins: Option<Jenkins>, followup: Followup, hasOutputRoom: bool)

  datatype Config = Config(codex: Codex, rooms: seq<Room>, lease: u64)

  function Apply(patch: CodexPatch, base: Codex): Codex {
    Codex(if patch.timeout.Some? then patch.timeout.value else base.timeout,
          if patch.isolated.Some? then patch.isolated.value else base.isolated)
  }

  function CodexFor(cfg: Config, room: Room): Codex {
    if room.codex.Some? then Apply(room.codex.value, cfg.codex) else cfg.codex
  }

  // ----- as the program computes it -----

  function PageRequests(limit: u64): u64 {
    SaturatingAdd(limit, WEBEX_LIST_PAGE_SIZE - 1) / WEBEX_LIST_PAGE_SIZE
  }

  function FollowupRequests(f: Followup): u64 {
    SaturatingAdd(
      SaturatingAdd(FOLLOWUP_NON_PAGED_WEBEX_REQUESTS_PER_ATTEMPT,
                    PageRequests(Max(f.maxThreadMessages, FOLLOWUP_MARKER_SEARCH_MAX_MESSAGES))),
      PageRequests(Max(f.maxThreadMessages, FOLLOWUP_REPLY_MARKER_SEARCH_MIN_MESSAGES)))
  }

  function RoomRequests(room: Room): u64 {
    var direct := WEBEX_REQUESTS_PER_ATTEMPT;
    var staged := if room.hasOutputRoom then SaturatingAdd(direct, STAGING_WEBEX_REQUESTS_PER_ATTEMPT) else direct;
    if room.followup.enabled then SaturatingAdd(staged, FollowupRequests(room.followup)) else staged
  }

  function Prefetch(room: Room): u64 {
    if room.jenkins.Some? && room.jenkins.value.enabled
    then SaturatingMul(Max(room.jenkins.value.timeout, 1), room.jenkins.value.maxUrls)
    else 0
  }

  function IsolationOverhead(codex: Codex): u64 {
    if codex.isolated then EPHEMERAL_RUNNER_WALL_OVERHEAD_SECONDS else 0
  }

  function MinimumLease(codex: Codex, prefetch: u64, requests: u64): u64 {
    SaturatingAdd(
      SaturatingAdd(SaturatingAdd(SaturatingAdd(codex.timeout, IsolationOverhead(codex)), prefetch),
                    EVENT_HYDRATION_NOT_FOUND_RETRY_SECS),
      SaturatingMul(WEBEX_REQUEST_TIMEOUT_SECS, requests))
  }

  // ----- as it is meant -----

  /** How many pages of a hundred it takes to list so many items: the least number that is enough. */
  ghost predicate PagesNeeded(limit: nat, pages: nat) {
    limit <= 100 * pages && (pages > 0 ==> 100 * (pages - 1) < limit)
  }

  function Pages(limit: nat): (pages: nat)
    ensures PagesNeeded(limit, pages)
  {
    (limit + 99) / 100
  }

  function RoomRequestsNeeded(room: Room): nat {
    9 + (if room.hasOutputRoom then 7 else 0)
    + if room.followup.enabled
      then 3 + Pages(Max(room.followup.maxThreadMessages, 100)) + Pages(Max(room.followup.maxThreadMessages, 300))
      else 0
  }

  function PrefetchNeeded(room: Room): nat {
    if room.jenkins.Some? && room.jenkins.value.enabled
    then Max(room.jenkins.value.timeout, 1) * room.jenkins.value.maxUrls
    else 0
  }

  function LeaseNeeded(codex: Codex, prefetch: nat, requests: nat): nat {
    codex.timeout + IsolationOverhead(codex) + prefetch + 5 + 30 * requests
  }

  ghost predicate RoomFits(cfg: Config, room: Room) {
    LeaseNeeded(CodexFor(cfg, room), PrefetchNeeded(room), RoomRequestsNeeded(room)) < cfg.lease
  }

  /** The global settings and every single room fit into the lease. */
  ghost predicate Fits(cfg: Config) {
    && LeaseNeeded(cfg.codex, 0, 9) < cfg.lease
    && forall i | 0 <= i < |cfg.rooms| :: RoomFits(cfg, cfg.rooms[i])
  }

  // ----- saturation only ever rejects, save in one place -----

  /** Above this many messages the saturated page count is one short. */
  const LAST_EXACT_LIMIT: nat := 18_446_744_073_709_551_600

  lemma PageRequestsExactly(limit: u64)
    ensures PageRequests(limit) == Pages(limit) <==> limit <= LAST_EXACT_LIMIT
    ensures PageRequests(limit) <= Pages(limit) <= PageRequests(limit) + 1
  {
    if limit + 99 <= U64_MAX {
    } else if limit <= LAST_EXACT_LIMIT {
      assert (limit + 99) / 100 == 184467440737095516;
    } else {
      assert (limit + 99) / 100 == 184467440737095517;
    }
  }

  ghost predicate PagesExact(room: Room) {
    room.followup.enabled ==> room.followup.maxThreadMessages <= LAST_EXACT_LIMIT
  }

  lemma RequestsExactly(room: Room)
    ensures RoomRequests(room) <= RoomRequestsNeeded(room)
    ensures RoomRequests(room) == RoomRequestsNeeded(room) <==> PagesExact(room)
  {
    var n := room.followup.maxThreadMessages;
    PageRequestsExactly(Max(n, 100));
    PageRequestsExactly(Max(n, 300));
  }

  lemma SaturatedComparison(codex: Codex, prefetch: nat, requests: u64, lease: u64)
    ensures MinimumLease(codex, Min(prefetch, U64_MAX), requests) >= lease <==> LeaseNeeded(codex, prefetch, requests) >= lease
  {
  }

  lemma PrefetchSaturates(room: Room)
    ensures Prefetch(room) == Min(PrefetchNeeded(room), U64_MAX)
  {
  }

  /** The rooms the loop skips ask for no more than the global check has granted. */
  lemma SkippedRoomsFit(cfg: Config, room: Room)
    requires room.codex == None && Prefetch(room) == 0 && RoomRequests(room) <= WEBEX_REQUESTS_PER_ATTEMPT
    requires LeaseNeeded(cfg.codex, 0, 9) < cfg.lease
    ensures RoomFits(cfg, room)
  {
    PrefetchSaturates(room);
    RequestsExactly(room);
  }

  method ValidateLeaseFor(cfg: Config, codex: Codex, prefetch: u64, requests: u64) returns (ok: bool)
    ensures ok <==> MinimumLease(codex, prefetch, requests) < cfg.lease
  {
    ok := !(MinimumLease(codex, prefetch, requests) >= cfg.lease);
  }

  /** What the check lets through, room by room. */
  predicate Accepts(cfg: Config) {
    && MinimumLease(cfg.codex, 0, WEBEX_REQUESTS_PER_ATTEMPT) < cfg.lease
    && forall i | 0 <= i < |cfg.rooms| :: RoomAccepted(cfg, cfg.rooms[i])
  }

  predicate RoomAccepted(cfg: Config, room: Room) {
    MinimumLease(CodexFor(cfg, room), Prefetch(room), RoomRequests(room)) < cfg.lease
  }

  /**
    The whole check: skipping rooms changes nothing, it refuses nothing that fits, and it
    lets through only what fits when page counts are exact.
  */
  method ValidateLease(cfg: Config) returns (ok: bool)
    ensures ok <==> Accepts(cfg)
    ensures Fits(cfg) ==> ok
    ensures (forall i | 0 <= i < |cfg.rooms| :: PagesExact(cfg.rooms[i])) ==> (ok <==> Fits(cfg))
  {
    forall room { AcceptedExactly(cfg, room); }
    SaturatedComparison(cfg.codex, 0, WEBEX_REQUESTS_PER_ATTEMPT, cfg.lease);
    ok := ValidateLeaseFor(cfg, cfg.codex, 0, WEBEX_REQUESTS_PER_ATTEMPT);
    if !ok { return; }
    for i := 0 to |cfg.rooms|
      invariant forall j | 0 <= j < i :: RoomAccepted(cfg, cfg.rooms[j])
    {
      var room := cfg.rooms[i];
      var codex, prefetch, requests := CodexFor(cfg, room), Prefetch(room), RoomRequests(room);
      if room.codex.Some? || prefetch > 0 || requests > WEBEX_REQUESTS_PER_ATTEMPT {
        ok := ValidateLeaseFor(cfg, codex, prefetch, requests);
        if !ok { return; }
      } else {
        SkippedRoomsFit(cfg, room);
      }
    }
  }

  /** What the computed minimum of a room has to do with the one that is needed. */
  lemma AcceptedExactly(cfg: Config, room: Room)
    ensures RoomFits(cfg, room) ==> RoomAccepted(cfg, room)
    ensures PagesExact(room) ==> (RoomAccepted(cfg, room) <==> RoomFits(cfg, room))
  {
    PrefetchSaturates(room);
    RequestsExactly(room);
    SaturatedComparison(CodexFor(cfg, room), PrefetchNeeded(room), RoomRequests(room), cfg.lease);
  }

  function Needed(codex: Codex, room: Room): nat {
    LeaseNeeded(CodexFor(Config(codex, [room], 0), room), PrefetchNeeded(room), RoomRequestsNeeded(room))
  }

  /** Some lease is long enough for the check, and too short for this room. */
  ghost predicate Undercounted(codex: Codex, room: Room) {
    exists lease: u64 :: Accepts(Config(codex, [room], lease)) && !Fits(Config(codex, [room], lease))
  }

  /**
    This happens exactly with page counts that saturate, as long as what is needed is not
    itself past every lease, and the global settings do not ask for more.
  */
  lemma UndercountedExactly(codex: Codex, room: Room)
    ensures Undercounted(codex, room) <==>
            && !PagesExact(room) && Needed(codex, room) - 60 < U64_MAX
            && LeaseNeeded(codex, 0, 9) < Min(Needed(codex, room), U64_MAX)
  {
    var needed := Needed(codex, room);
    if !PagesExact(room) && needed - 60 < U64_MAX && LeaseNeeded(codex, 0, 9) < Min(needed, U64_MAX) {
      var lease: u64 := Min(needed, U64_MAX);
      OneRoom(codex, room, lease);
      assert Accepts(Config(codex, [room], lease)) && !Fits(Config(codex, [room], lease));
    }
    if Undercounted(codex, room) {
      var lease: u64 :| Accepts(Config(codex, [room], lease)) && !Fits(Config(codex, [room], lease));
      OneRoom(codex, room, lease);
    }
  }

  /** Both sides of the comparison for a configuration with one room. */
  lemma OneRoom(codex: Codex, room: Room, lease: u64)
    ensures var cfg := Config(codex, [room], lease);
            && (Accepts(cfg) <==> LeaseNeeded(codex, 0, 9) < lease && Needed(codex, room) - (if PagesExact(room) then 0 else 60) < lease)
            && (Fits(cfg) <==> LeaseNeeded(codex, 0, 9) < lease && Needed(codex, room) < lease)
  {
    var cfg := Config(codex, [room], lease);
    assert cfg.rooms[0] == room;
    PrefetchSaturates(room);
    RequestsExactly(room);
    if !PagesExact(room) { PageRequestsExactly(room.followup.maxThreadMessages); }
    SaturatedComparison(codex, 0, WEBEX_REQUESTS_PER_ATTEMPT, lease);
    SaturatedComparison(CodexFor(cfg, room), PrefetchNeeded(room), RoomRequests(room), lease);
  }

  /** One message past the last exact limit, in a room with everything else at its smallest. */
  lemma UndercountAccepted()
    ensures Undercounted(Codex(600, false), Room(None, None, Followup(true, LAST_EXACT_LIMIT + 1), false))
  {
    UndercountedExactly(Codex(600, false), Room(None, None, Followup(true, LAST_EXACT_LIMIT + 1), false));
  }

  // ----- an attempt, by what it waits for -----

  /** Calls one after the other, each given up at its limit. */
  function CappedSum(lengths: seq<nat>, limit: nat): nat {
    if lengths == [] then 0 else CappedSum(lengths[..|lengths| - 1], limit) + Capped(lengths[|lengths| - 1], limit)
  }

  lemma {:induction false} CappedSumBound(lengths: seq<nat>, limit: nat, n: nat)
    requires |lengths| <= n
    ensures CappedSum(lengths, limit) <= Millis(limit * n)
  {
    if lengths == [] {
      assert limit * n >= 0;
    } else {
      CappedSumBound(lengths[..|lengths| - 1], limit, n - 1);
      assert limit * n == limit * (n - 1) + limit;
    }
  }

  method CallEach(lengths: seq<nat>, limit: nat) returns (elapsed: nat)
    ensures elapsed == CappedSum(lengths, limit)
  {
    elapsed := 0;
    for i := 0 to |lengths|
      invariant elapsed == CappedSum(lengths[..i], limit)
    {
      assert lengths[..i + 1][..i] == lengths[..i];
      elapsed := elapsed + Capped(lengths[i], limit);
    }
    assert lengths[..|lengths|] == lengths;
  }

  /** Prefetching: helpers one after the other, up to the first that is out of time. */
  function HelperTime(lengths: seq<nat>, limit: nat): nat {
    if lengths == [] then 0
    else if lengths[0] >= Millis(limit) then Millis(limit)
    else lengths[0] + HelperTime(lengths[1..], limit)
  }

  lemma {:induction false} HelperTimeBound(lengths: seq<nat>, limit: nat, n: nat)
    requires |lengths| <= n
    ensures HelperTime(lengths, limit) <= Millis(limit * n)
  {
    if lengths == [] {
      assert limit * n >= 0;
    } else {
      HelperTimeBound(lengths[1..], limit, n - 1);
      assert limit * n == limit * (n - 1) + limit && limit * (n - 1) >= 0;
    }
  }

  method RunHelpers(lengths: seq<nat>, limit: nat) returns (elapsed: nat)
    ensures elapsed == HelperTime(lengths, limit)
  {
    elapsed := 0;
    for i := 0 to |lengths|
      invariant elapsed + HelperTime(lengths[i..], limit) == HelperTime(lengths, limit)
    {
      assert lengths[i..][1..] == lengths[i + 1..];
      elapsed := elapsed + Capped(lengths[i], limit);
      if lengths[i] >= Millis(limit) { return; }
    }
  }

  /** How long everything an attempt waits for would take; `missed` is whether the event has to be asked for again. */
  datatype Work = Work(missed: bool, helpers: seq<nat>, requests: seq<nat>, run: Isolated)

  /** The calls the room's settings allow for. */
  ghost predicate Allowed(room: Room, w: Work) {
    && |w.requests| <= RoomRequestsNeeded(room)
    && |w.helpers| <= if room.jenkins.Some? && room.jenkins.value.enabled then room.jenkins.value.maxUrls else 0
  }

  function HelperLimit(room: Room): nat {
    if room.jenkins.Some? then Max(room.jenkins.value.timeout, 1) else 0
  }

  function AttemptTime(cfg: Config, room: Room, w: Work): nat {
    (if w.missed then Millis(EVENT_HYDRATION_NOT_FOUND_RETRY_SECS) else 0)
    + HelperTime(w.helpers, HelperLimit(room)) + CappedSum(w.requests, WEBEX_REQUEST_TIMEOUT_SECS)
    + IsolatedTime(CodexFor(cfg, room).timeout, w.run)
  }

  /** One attempt in a room with isolation. */
  method Attempt(cfg: Config, room: Room, w: Work) returns (elapsed: nat)
    ensures elapsed == AttemptTime(cfg, room, w)
  {
    elapsed := if w.missed then Millis(EVENT_HYDRATION_NOT_FOUND_RETRY_SECS) else 0;
    var helped := RunHelpers(w.helpers, HelperLimit(room));
    var called := CallEach(w.requests, WEBEX_REQUEST_TIMEOUT_SECS);
    var ran, alive := IsolatedAttempt(CodexFor(cfg, room).timeout, w.run);
    elapsed := elapsed + helped + called + ran;
  }

  /** Whatever an attempt in an accepted configuration waits for, it ends before its lease. */
  method AcceptedAttemptEndsInTime(cfg: Config, i: nat, w: Work) returns (accepted: bool, elapsed: nat)
    requires i < |cfg.rooms| && CodexFor(cfg, cfg.rooms[i]).isolated && Allowed(cfg.rooms[i], w)
    ensures accepted <==> Accepts(cfg)
    ensures elapsed == AttemptTime(cfg, cfg.rooms[i], w)
    ensures accepted && PagesExact(cfg.rooms[i]) ==> elapsed < Millis(cfg.lease)
  {
    var room := cfg.rooms[i];
    accepted := ValidateLease(cfg);
    elapsed := Attempt(cfg, room, w);
    AcceptedExactly(cfg, room);
    AttemptBound(cfg, room, w);
  }

  lemma AttemptBound(cfg: Config, room: Room, w: Work)
    requires CodexFor(cfg, room).isolated && Allowed(room, w)
    ensures AttemptTime(cfg, room, w) <= Millis(LeaseNeeded(CodexFor(cfg, room), PrefetchNeeded(room), RoomRequestsNeeded(room)))
  {
    CappedSumBound(w.requests, WEBEX_REQUEST_TIMEOUT_SECS, RoomRequestsNeeded(room));
    var urls := if room.jenkins.Some? && room.jenkins.value.enabled then room.jenkins.value.maxUrls else 0;
    HelperTimeBound(w.helpers, HelperLimit(room), urls);
    assert HelperLimit(room) * urls == PrefetchNeeded(room);
  }
}
