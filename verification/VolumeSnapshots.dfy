/**
  Finding and naming the pre-deletion snapshot of a volume, on GCP
  (functions/go/gcp/internal/volumedelete/snapshots.go, params.go, compute/names.go) and on
  Azure (functions/bins/volume-delete-azure/src/main.rs).
 */
module VolumeSnapshots {
  import opened Wrappers
  import opened Strings
  import opened Decimals
  import opened Volume

  // ---------------------------------------------------------------------------------------
  // The latest snapshot, found by a loop in Go and by an iterator chain in Rust. `key` is the
  // start second of a snapshot that counts, and None for one that doesn't.

  /** `ss[k]` is the last of the snapshots that started last. */
  ghost predicate IsLatest<S>(ss: seq<S>, key: S -> Option<int>, k: nat) {
    && k < |ss| && key(ss[k]).Some?
    && forall j: nat :: j < |ss| && key(ss[j]).Some? ==>
         key(ss[j]).value <= key(ss[k]).value && (j > k ==> key(ss[j]).value < key(ss[k]).value)
  }

  /** Where the latest snapshot is, if any counts. */
  function LatestOf<S>(ss: seq<S>, key: S -> Option<int>): (k: Option<nat>)
    ensures k.Some? ==> k.value < |ss| && key(ss[k.value]).Some?
  {
    if ss == [] then None
    else
      var n := |ss| - 1;
      var front := LatestOf(ss[..n], key);
      if key(ss[n]).Some? && (front.None? || key(ss[n]).value >= key(ss[front.value]).value) then Some(n) else front
  }

  lemma {:induction false} LatestOfIsLatest<S>(ss: seq<S>, key: S -> Option<int>)
    ensures var k := LatestOf(ss, key);
            && (k.Some? ==> IsLatest(ss, key, k.value))
            && (k.None? ==> forall s <- ss :: key(s).None?)
  {
    if ss != [] {
      var n := |ss| - 1;
      LatestOfIsLatest(ss[..n], key);
      assert forall j: nat :: j < n ==> ss[..n][j] == ss[j];
      assert forall s <- ss :: s in ss[..n] || s == ss[n];
    }
  }

  lemma LatestIsUnique<S>(ss: seq<S>, key: S -> Option<int>, i: nat, j: nat)
    requires IsLatest(ss, key, i) && IsLatest(ss, key, j)
    ensures i == j
  {
  }

  /** The Go loop. */
  method Latest<S>(ss: seq<S>, key: S -> Option<int>) returns (latest: Option<S>)
    ensures latest.None? ==> forall s <- ss :: key(s).None?
    ensures latest.Some? ==> exists k: nat :: IsLatest(ss, key, k) && latest.value == ss[k]
    ensures latest == match LatestOf(ss, key) case None => None case Some(k) => Some(ss[k])
  {
    latest := None;
    var latestCreated := 0;
    for i := 0 to |ss|
      invariant var k := LatestOf(ss[..i], key);
                && (k.None? <==> latest.None?)
                && (k.Some? ==> latest == Some(ss[k.value]) && key(ss[k.value]) == Some(latestCreated))
    {
      assert ss[..i + 1][..i] == ss[..i];
      var created := key(ss[i]);
      if created.Some? && (latest.None? || created.value >= latestCreated) {
        latest, latestCreated := Some(ss[i]), created.value;
      }
    }
    assert ss[..|ss|] == ss;
    LatestOfIsLatest(ss, key);
  }

  /** Rust: `filter_map` to the snapshots that count, with when they started. */
  function FilterMap<S>(ss: seq<S>, key: S -> Option<int>): seq<(int, S)> {
    if ss == [] then []
    else
      var front, s := FilterMap(ss[..|ss| - 1], key), ss[|ss| - 1];
      if key(s).Some? then front + [(key(s).value, s)] else front
  }

  /** Rust: `max_by_key` returns the last of the greatest elements. */
  function MaxByKey<S>(items: seq<(int, S)>): Option<(int, S)> {
    if items == [] then None
    else
      var front, item := MaxByKey(items[..|items| - 1]), items[|items| - 1];
      if front.Some? && front.value.0 > item.0 then front else Some(item)
  }

  /** The iterator chain finds the snapshot the loop finds. */
  lemma {:induction false} ChainFindsLatest<S>(ss: seq<S>, key: S -> Option<int>)
    ensures MaxByKey(FilterMap(ss, key)) ==
            match LatestOf(ss, key)
            case None => None
            case Some(k) => Some((key(ss[k]).value, ss[k]))
  {
    if ss != [] {
      var n := |ss| - 1;
      ChainFindsLatest(ss[..n], key);
      var items := FilterMap(ss, key);
      if key(ss[n]).Some? {
        assert items[..|items| - 1] == FilterMap(ss[..n], key);
      }
    }
  }

  // ---------------------------------------------------------------------------------------
  // GCP: which snapshots count and what they say.

  /** `created` is the creation timestamp, if it can be read. */
  datatype Snapshot = Snapshot(name: string, sourceDiskId: string, created: Option<int>, status: Option<string>)

  predicate Eligible(s: Snapshot, diskId: string, window: SnapshotWindow) {
    s.sourceDiskId == diskId && s.created.Some? && window.Counts(s.created.value)
  }

  function StatusOf(s: Snapshot): SnapshotStatus {
    var status := s.status.GetOr("");
    if status == "READY" then Completed(s.name)
    else if status == "FAILED" || status == "DELETING" then Failed(s.name)
    else InProgress(s.name)
  }

  // ---------------------------------------------------------------------------------------
  // Azure. IDs and tags are compared lower-cased; the percentage is rounded down.

  datatype Source = Source(resourceId: Option<string>, uniqueId: Option<string>)

  datatype AzureSnapshot = AzureSnapshot(
    name: string, tag: Option<string>, created: Option<int>, source: Option<Source>,
    provisioningState: string, percent: Option<int>)

  datatype AzureDisk = AzureDisk(id: string, uniqueId: Option<string>, sku: Option<string>)

  function TakenOf(s: AzureSnapshot, d: AzureDisk): bool {
    match (s.source, d.uniqueId)
    case (None, _) => false
    case (Some(source), Some(uid)) => source.uniqueId == Some(uid)
    case (Some(source), None) => source.resourceId == Some(d.id)
  }

  predicate AzureEligible(s: AzureSnapshot, d: AzureDisk, now: int, detachedAt: Option<int>) {
    s.tag == Some(d.id) && TakenOf(s, d) && s.created.Some? && SnapshotCounts(s.created.value, now, detachedAt)
  }

  function AzureKey(d: AzureDisk, now: int, detachedAt: Option<int>): AzureSnapshot -> Option<int> {
    (s: AzureSnapshot) => if AzureEligible(s, d, now, detachedAt) then s.created else None
  }

  predicate CopiesInBackground(d: AzureDisk) {
    d.sku.Some? && (d.sku.value == "PremiumV2_LRS" || d.sku.value == "UltraSSD_LRS")
  }

  function AzureStatusOf(s: AzureSnapshot, d: AzureDisk): SnapshotStatus {
    if s.provisioningState == "Failed" || s.provisioningState == "Canceled" then Failed(s.name)
    else if s.provisioningState == "Succeeded" && s.percent.None? && !CopiesInBackground(d) then Completed(s.name)
    else if s.provisioningState == "Succeeded" && s.percent.Some? && s.percent.value >= 100 then Completed(s.name)
    else InProgress(s.name)
  }

  function AzureStatus(ss: seq<AzureSnapshot>, d: AzureDisk, now: int, detachedAt: Option<int>): SnapshotStatus {
    match MaxByKey(FilterMap(ss, AzureKey(d, now, detachedAt)))
    case None => Missing
    case Some((_, latest)) => AzureStatusOf(latest, d)
  }

  /** Azure recorded the snapshot as taken of the disk: by its unique ID, or if the disk has none, by
      its resource ID. */
  predicate IsOf(s: AzureSnapshot, d: AzureDisk) {
    && s.source.Some?
    && (d.uniqueId.Some? ==> s.source.value.uniqueId == d.uniqueId)
    && (d.uniqueId.None? ==> s.source.value.resourceId == Some(d.id))
  }

  /** The function's snapshots of the disk that started in the last day, allowing for five minutes of
      clock skew, and after the last detach. */
  predicate CountsFor(s: AzureSnapshot, d: AzureDisk, now: int, detachedAt: Option<int>) {
    && s.tag == Some(d.id) && IsOf(s, d) && s.created.Some?
    && -300 <= now - s.created.value <= 86400
    && (detachedAt.Some? ==> s.created.value > detachedAt.value)
  }

  lemma EligibleMeans(s: AzureSnapshot, d: AzureDisk, now: int, detachedAt: Option<int>)
    ensures AzureEligible(s, d, now, detachedAt) <==> CountsFor(s, d, now, detachedAt)
  {
  }

  /** The copying of the snapshot's data has finished. */
  predicate IsCopied(s: AzureSnapshot, d: AzureDisk) {
    && s.provisioningState == "Succeeded"
    && if s.percent.Some? then s.percent.value >= 100
       else d.sku != Some("PremiumV2_LRS") && d.sku != Some("UltraSSD_LRS")
  }

  /** Of the snapshots that count, `ss[k]` is the last of those that started last. */
  ghost predicate IsLatestFor(ss: seq<AzureSnapshot>, d: AzureDisk, now: int, detachedAt: Option<int>, k: nat) {
    && k < |ss| && CountsFor(ss[k], d, now, detachedAt)
    && forall j: nat :: j < |ss| && CountsFor(ss[j], d, now, detachedAt) ==>
         ss[j].created.value <= ss[k].created.value && (j > k ==> ss[j].created.value < ss[k].created.value)
  }

  /** How far a snapshot is. */
  predicate IsStatusOf(status: SnapshotStatus, s: AzureSnapshot, d: AzureDisk) {
    && (status == Completed(s.name) <==> IsCopied(s, d))
    && (status == Failed(s.name) <==> s.provisioningState == "Failed" || s.provisioningState == "Canceled")
    && (status == InProgress(s.name) <==>
          !IsCopied(s, d) && s.provisioningState != "Failed" && s.provisioningState != "Canceled")
  }

  lemma StatusIsExact(s: AzureSnapshot, d: AzureDisk)
    ensures IsStatusOf(AzureStatusOf(s, d), s, d)
  {
  }

  lemma LatestForMeans(ss: seq<AzureSnapshot>, d: AzureDisk, now: int, detachedAt: Option<int>, k: nat)
    ensures IsLatest(ss, AzureKey(d, now, detachedAt), k) <==> IsLatestFor(ss, d, now, detachedAt, k)
  {
    var key := AzureKey(d, now, detachedAt);
    forall j: nat | j < |ss|
      ensures key(ss[j]) == if CountsFor(ss[j], d, now, detachedAt) then ss[j].created else None
    {
      EligibleMeans(ss[j], d, now, detachedAt);
    }
  }

  /** The status is missing exactly if no snapshot counts. Otherwise it is that of the latest that
      does: complete if it has succeeded with nothing left to copy, failed if it failed or was
      canceled, and in progress if neither. */
  lemma AzureStatusMeans(ss: seq<AzureSnapshot>, d: AzureDisk, now: int, detachedAt: Option<int>)
    ensures var status := AzureStatus(ss, d, now, detachedAt);
            && (status.Missing? <==> forall s <- ss :: !CountsFor(s, d, now, detachedAt))
            && (forall k: nat :: IsLatestFor(ss, d, now, detachedAt, k) ==> IsStatusOf(status, ss[k], d))
            && (!status.Missing? ==> exists k: nat :: IsLatestFor(ss, d, now, detachedAt, k))
  {
    var key := AzureKey(d, now, detachedAt);
    ChainFindsLatest(ss, key);
    LatestOfIsLatest(ss, key);
    var k := LatestOf(ss, key);
    forall s | s in ss
      ensures key(s) == if CountsFor(s, d, now, detachedAt) then s.created else None
    {
      EligibleMeans(s, d, now, detachedAt);
    }
    if k.Some? {
      LatestForMeans(ss, d, now, detachedAt, k.value);
      StatusIsExact(ss[k.value], d);
      forall j: nat | IsLatestFor(ss, d, now, detachedAt, j)
        ensures j == k.value
      {
        LatestForMeans(ss, d, now, detachedAt, j);
        LatestIsUnique(ss, key, j, k.value);
      }
    }
  }

  /** A snapshot reported complete is the latest that counts: Azure recorded it as taken of this
      very disk, it started after the last detach, it succeeded and no copying is left. */
  lemma AzureCompletedIsOfThisDisk(ss: seq<AzureSnapshot>, d: AzureDisk, now: int, detachedAt: Option<int>)
    requires AzureStatus(ss, d, now, detachedAt).Completed?
    ensures exists k: nat ::
              && IsLatest(ss, AzureKey(d, now, detachedAt), k)
              && ss[k].name == AzureStatus(ss, d, now, detachedAt).id
              && IsOf(ss[k], d) && IsCopied(ss[k], d)
              && (detachedAt.Some? ==> ss[k].created.value > detachedAt.value)
  {
    AzureStatusMeans(ss, d, now, detachedAt);
    var k: nat :| IsLatestFor(ss, d, now, detachedAt, k);
    LatestForMeans(ss, d, now, detachedAt, k);
  }

  // ---------------------------------------------------------------------------------------
  // Names.

  predicate NameChar(c: char) {
    'a' <= c <= 'z' || '0' <= c <= '9' || c == '-'
  }

  /** `[a-z]([-a-z0-9]{0,61}[a-z0-9])?`, as section 2.3.1 of RFC 1035 has it. */
  predicate ValidName(n: string) {
    && 1 <= |n| <= 63 && 'a' <= n[0] <= 'z' && n[|n| - 1] != '-'
    && forall c <- n :: NameChar(c)
  }

  method IsValidName(n: string) returns (valid: bool)
    ensures valid == ValidName(n)
  {
    if n == "" || |n| > 63 || n[0] < 'a' || n[0] > 'z' || n[|n| - 1] == '-' {
      return false;
    }
    for i := 0 to |n|
      invariant forall c <- n[..i] :: NameChar(c)
    {
      var b := n[i];
      if (b < 'a' || b > 'z') && (b < '0' || b > '9') && b != '-' {
        assert b in n;
        return false;
      }
      assert n[..i + 1] == n[..i] + [b];
    }
    assert n[..|n|] == n;
    return true;
  }

  const SNAPSHOT_NAME_DISK_LEN: nat := 40
  const SUFFIX := "-predelete-"

  function Shortened(disk: string): string {
    if |disk| > SNAPSHOT_NAME_DISK_LEN then disk[..SNAPSHOT_NAME_DISK_LEN] else disk
  }

  function Base(disk: string): string {
    TrimRight(Shortened(disk), (c: char) => c == '-')
  }

  function SnapshotName(disk: string, now: nat): string {
    Base(disk) + SUFFIX + Decimal(now)
  }

  lemma {:induction false} TrimKeepsStart(s: string)
    requires s != "" && s[0] != '-'
    ensures var t := TrimRight(s, c => c == '-'); t != "" && t[0] == s[0] && |t| <= |s| && forall c <- t :: c in s
  {
    if s[|s| - 1] == '-' {
      TrimKeepsStart(s[..|s| - 1]);
    }
  }

  /** The name is the start of the disk's, at most 40 characters of it and without dashes at its end,
      and the time. */
  lemma SnapshotNameMeans(disk: string, now: nat)
    ensures exists base: string ::
              && SnapshotName(disk, now) == base + "-predelete-" + Decimal(now)
              && base <= disk && |base| <= 40 && (base != "" ==> base[|base| - 1] != '-')
              && forall i :: |base| <= i < |disk| && i < 40 ==> disk[i] == '-'
  {
    var short := Shortened(disk);
    var dash := (c: char) => c == '-';
    TrimRightMeans(short, dash);
    var base := TrimRight(short, dash);
    assert SnapshotName(disk, now) == base + "-predelete-" + Decimal(now);
    forall i: nat | |base| <= i < |disk| && i < 40
      ensures disk[i] == '-'
    {
      assert dash(short[i]);
    }
  }

  /** The name of a snapshot of a validly named disk is valid exactly if the time's digits fit
      with what is kept of the disk's name, as they do for any time of up to 12 digits. */
  lemma SnapshotNameIsValid(disk: string, now: nat)
    requires ValidName(disk)
    ensures ValidName(SnapshotName(disk, now)) <==> |Base(disk)| + |Decimal(now)| <= 52
    ensures now < 1_000_000_000_000 ==> ValidName(SnapshotName(disk, now))
  {
    var short := Shortened(disk);
    TrimKeepsStart(short);
    var base, digits, name := Base(disk), Decimal(now), SnapshotName(disk, now);
    assert |SUFFIX| == 11 && |name| == |base| + 11 + |digits|;
    DecimalLength(now, 12);
    Pow10Of12();
    forall c | c in name
      ensures NameChar(c)
    {
      if c in base {
        assert c in short && c in disk;
      } else if c in SUFFIX {
        SuffixChars(c);
      } else {
        assert c in digits && IsDigit(c);
      }
    }
    assert name[|name| - 1] == digits[|digits| - 1] && IsDigit(digits[|digits| - 1]);
  }

  lemma SuffixChars(c: char)
    requires c in SUFFIX
    ensures NameChar(c)
  {
  }

  lemma Pow10Of12()
    ensures Pow10(12) == 1_000_000_000_000
  {
  }

  /** Snapshots of one disk started in different seconds have different names. */
  lemma SnapshotNamesDiffer(disk: string, now: nat, later: nat)
    requires SnapshotName(disk, now) == SnapshotName(disk, later)
    ensures now == later
  {
    var prefix := Base(disk) + SUFFIX;
    assert SnapshotName(disk, now)[|prefix|..] == Decimal(now);
    assert SnapshotName(disk, later)[|prefix|..] == Decimal(later);
    ValueOfDecimal(now);
    ValueOfDecimal(later);
  }
}
