/**
  Short-lived SSH access to Azure VMs (functions/bins/ssh-access-azure/src/main.rs): the expiry
  kept in a role assignment's description, the sweep that removes expired assignments, and
  granting again without shortening.
 */
module AzureAccess {
  import opened Wrappers
  import opened Strings
  import opened Decimals
  import opened ResourceIds

  const USER_LOGIN_ROLE := "fb879df8-f326-4884-b1cf-06f3ad86be52"
  const ADMIN_LOGIN_ROLE := "1c0163c0-47e6-4577-8991-ea5c82e286e4"
  const MARKER := "plural.sh ssh-access"
  const EXPIRES := "expires="
  const MAX_I64: int := 0x7FFF_FFFF_FFFF_FFFF

  datatype Role = User | Admin

  function RoleOf(definitionId: string): Option<Role> {
    var guid := AfterLast(definitionId, '/');
    if EqIgnoreCase(guid, USER_LOGIN_ROLE) then Some(User)
    else if EqIgnoreCase(guid, ADMIN_LOGIN_ROLE) then Some(Admin)
    else None
  }

  datatype Assignment = Assignment(
    name: string, roleDefinitionId: string, principalId: string, principalType: Option<string>,
    scope: string, description: Option<string>)

  type Spaces = char -> bool

  function Digits(s: string): (d: string)
    ensures forall c <- d :: IsDigit(c)
  {
    if s == "" || !IsDigit(s[0]) then "" else [s[0]] + Digits(s[1..])
  }

  /** A 64-bit integer read from digits. */
  function ParseI64(digits: string): Option<int>
    requires forall c <- digits :: IsDigit(c)
  {
    if digits == "" || Value(digits) > MAX_I64 then None else Some(Value(digits))
  }

  /** The expiry in a description, if this function wrote it. */
  function DescribedExpiry(description: string, space: Spaces): Option<int> {
    match StripPrefix(description, MARKER)
    case None => None
    case Some(rest) =>
      match StripPrefix(TrimLeft(rest, space), EXPIRES)
      case None => None
      case Some(expires) => ParseI64(Digits(expires))
  }

  /** When an assignment this function created expires, or None for any other. */
  function ExpiresAt(a: Assignment, space: Spaces): Option<int> {
    if RoleOf(a.roleDefinitionId).None? then None
    else if a.principalType.None? || !EqIgnoreCase(a.principalType.value, "User") then None
    else if a.description.None? then None
    else DescribedExpiry(a.description.value, space)
  }

  function PrintI64(n: int): string {
    if n < 0 then "-" + Decimal(-n) else Decimal(n)
  }

  /** The description of a grant; `time` is the expiry formatted for people. */
  function Describe(expires: int, time: string): string {
    MARKER + " " + EXPIRES + PrintI64(expires) + " (" + time + ")"
  }

  lemma {:induction false} DigitsOfConcat(digits: string, rest: string)
    requires forall c <- digits :: IsDigit(c)
    requires rest == "" || !IsDigit(rest[0])
    ensures Digits(digits + rest) == digits
  {
    if digits == "" {
      assert digits + rest == rest;
    } else {
      assert IsDigit(digits[0]);
      assert (digits + rest)[1..] == digits[1..] + rest;
      DigitsOfConcat(digits[1..], rest);
    }
  }

  /** What is read of a description is what follows its prefixes. */
  lemma PrefixesAreRead(printed: string, tail: string, space: Spaces)
    requires space(' ') && !space('e')
    ensures DescribedExpiry(MARKER + " " + EXPIRES + printed + tail, space) == ParseI64(Digits(printed + tail))
  {
    var afterSpace := EXPIRES + (printed + tail);
    var afterMarker := " " + afterSpace;
    assert MARKER + " " + EXPIRES + printed + tail == MARKER + afterMarker;
    StripPrefixMeans(MARKER + afterMarker, MARKER, afterMarker);
    assert afterMarker[1..] == afterSpace && afterSpace[0] == 'e';
    assert TrimLeft(afterMarker, space) == TrimLeft(afterSpace, space) == afterSpace;
    StripPrefixMeans(EXPIRES + (printed + tail), EXPIRES, printed + tail);
  }

  /** The expiry reads back exactly if it isn't negative, for every 64-bit time. */
  lemma ExpiryReadsBack(expires: int, time: string, space: Spaces)
    requires -MAX_I64 - 1 <= expires <= MAX_I64 && space(' ') && !space('e')
    ensures DescribedExpiry(Describe(expires, time), space) == if expires >= 0 then Some(expires) else None
  {
    var printed, tail := PrintI64(expires), " (" + time + ")";
    assert Describe(expires, time) == MARKER + " " + EXPIRES + printed + tail;
    PrefixesAreRead(printed, tail, space);
    if expires >= 0 {
      DigitsOfConcat(printed, tail);
      ValueOfDecimal(expires);
    } else {
      assert (printed + tail)[0] == '-';
    }
  }

  // ---------------------------------------------------------------------------------------
  // Which assignments the function made.

  /** `t` is what follows the last slash, or all if there is none. */
  ghost predicate IsLastSegment(s: string, t: string) {
    '/' !in t && (s == t || exists p: string :: s == p + "/" + t)
  }

  lemma LastSegmentMeans(s: string, t: string)
    ensures IsLastSegment(s, t) <==> t == AfterLast(s, '/')
  {
    var last := AfterLast(s, '/');
    AfterLastIsLastPart(s, '/');
    if last != s {
      assert s == s[..|s| - |last| - 1] + "/" + last;
    }
    if IsLastSegment(s, t) {
      if s == t {
        assert last == t;
      } else {
        var p: string :| s == p + "/" + t;
        AfterLastOf(p, t, '/');
      }
    }
  }

  /** The description in its parts. */
  predicate Says(description: string, expires: int, space: Spaces, blanks: string, digits: string, rest: string) {
    && description == "plural.sh ssh-access" + (blanks + ("expires=" + (digits + rest)))
    && (forall c <- blanks :: space(c)) && IsNumber(digits, expires)
    && (rest == "" || !IsDigit(rest[0]))
  }

  /** The description is the marker and, after blanks, the expiry in seconds. */
  ghost predicate SaysExpires(description: string, expires: int, space: Spaces) {
    exists blanks: string, digits: string, rest: string :: Says(description, expires, space, blanks, digits, rest)
  }

  /** The digits are those of a 64-bit integer. */
  predicate IsNumber(digits: string, n: int) {
    digits != "" && (forall c <- digits :: IsDigit(c)) && Value(digits) == n && n <= 9_223_372_036_854_775_807
  }

  lemma {:induction false} TrimLeftOf(blanks: string, s: string, space: Spaces)
    requires (forall c <- blanks :: space(c)) && (s == "" || !space(s[0]))
    ensures TrimLeft(blanks + s, space) == s
  {
    if blanks == "" {
      assert blanks + s == s;
    } else {
      assert space(blanks[0]);
      assert (blanks + s)[1..] == blanks[1..] + s;
      TrimLeftOf(blanks[1..], s, space);
    }
  }

  lemma {:induction false} DigitsMean(s: string)
    ensures Digits(s) <= s && (|Digits(s)| < |s| ==> !IsDigit(s[|Digits(s)|]))
  {
    if s != "" && IsDigit(s[0]) {
      DigitsMean(s[1..]);
    }
  }

  lemma ReadsExpiry(description: string, expires: int, space: Spaces)
    requires !space('e') && SaysExpires(description, expires, space)
    ensures DescribedExpiry(description, space) == Some(expires)
  {
    var blanks: string, digits: string, rest: string :| Says(description, expires, space, blanks, digits, rest);
    var expiry := "expires=" + (digits + rest);
    StripPrefixMeans(MARKER + (blanks + expiry), MARKER, blanks + expiry);
    assert expiry[0] == 'e';
    TrimLeftOf(blanks, expiry, space);
    StripPrefixMeans(EXPIRES + (digits + rest), EXPIRES, digits + rest);
    DigitsOfConcat(digits, rest);
  }

  /** What is trimmed is blank. */
  lemma Blanks(s: string, space: Spaces) returns (blanks: string)
    ensures s == blanks + TrimLeft(s, space) && forall c <- blanks :: space(c)
  {
    var n := |s| - |TrimLeft(s, space)|;
    TrimLeftMeans(s, space);
    blanks := s[..n];
  }

  lemma SplitDigits(s: string) returns (rest: string)
    ensures s == Digits(s) + rest && (rest == "" || !IsDigit(rest[0]))
  {
    DigitsMean(s);
    rest := s[|Digits(s)|..];
  }

  lemma ExpiryWasSaid(description: string, space: Spaces)
    requires DescribedExpiry(description, space).Some?
    ensures SaysExpires(description, DescribedExpiry(description, space).value, space)
  {
    var after := StripPrefix(description, MARKER).value;
    var trimmed := TrimLeft(after, space);
    var expiry := StripPrefix(trimmed, EXPIRES).value;
    StripPrefixMeans(description, MARKER, after);
    StripPrefixMeans(trimmed, EXPIRES, expiry);
    var blanks := Blanks(after, space);
    var rest := SplitDigits(expiry);
    assert Says(description, DescribedExpiry(description, space).value, space, blanks, Digits(expiry), rest);
  }

  /** An assignment this function made for a user, with its expiry: of one of the two login roles, to a
      user, and with a description that says when it expires. */
  ghost predicate IsGrantUntil(a: Assignment, expires: int, space: Spaces) {
    && (exists role: string ::
          IsLastSegment(a.roleDefinitionId, role) &&
          (EqIgnoreCase(role, "fb879df8-f326-4884-b1cf-06f3ad86be52") ||
           EqIgnoreCase(role, "1c0163c0-47e6-4577-8991-ea5c82e286e4")))
    && a.principalType.Some? && EqIgnoreCase(a.principalType.value, "User")
    && a.description.Some? && SaysExpires(a.description.value, expires, space)
  }

  lemma RoleMeans(definitionId: string)
    ensures RoleOf(definitionId).Some? <==>
            exists role: string ::
              IsLastSegment(definitionId, role) &&
              (EqIgnoreCase(role, "fb879df8-f326-4884-b1cf-06f3ad86be52") ||
               EqIgnoreCase(role, "1c0163c0-47e6-4577-8991-ea5c82e286e4"))
  {
    var last := AfterLast(definitionId, '/');
    LastSegmentMeans(definitionId, last);
    forall role: string
      ensures IsLastSegment(definitionId, role) <==> role == last
    {
      LastSegmentMeans(definitionId, role);
    }
  }

  /** The user role is the one without sudo. */
  lemma RolesDiffer(definitionId: string)
    ensures RoleOf(definitionId) == Some(User) <==>
            EqIgnoreCase(AfterLast(definitionId, '/'), "fb879df8-f326-4884-b1cf-06f3ad86be52")
  {
  }

  /** An expiry is read exactly of the assignments this function made, and it is theirs. */
  lemma ExpiresAtMeans(a: Assignment, expires: int, space: Spaces)
    requires !space('e')
    ensures ExpiresAt(a, space) == Some(expires) <==> IsGrantUntil(a, expires, space)
  {
    RoleMeans(a.roleDefinitionId);
    if a.description.Some? {
      if DescribedExpiry(a.description.value, space).Some? {
        ExpiryWasSaid(a.description.value, space);
      }
      if SaysExpires(a.description.value, expires, space) {
        ReadsExpiry(a.description.value, expires, space);
      }
    }
  }

  // ---------------------------------------------------------------------------------------
  // The sweep.

  /** Whether the sweep of a scope removes the assignment. */
  predicate Due(scope: string, a: Assignment, now: int, space: Spaces) {
    StartsWith(Lower(a.scope), Lower(scope) + "/") &&
    ExpiresAt(a, space).Some? && ExpiresAt(a, space).value <= now
  }

  /** The scope is strictly below the other, in any case. */
  ghost predicate IsBelow(scope: string, above: string) {
    exists rest: string :: EqIgnoreCase(scope, above + "/" + rest)
  }

  lemma BelowMeans(scope: string, above: string)
    ensures StartsWith(Lower(scope), Lower(above) + "/") <==> IsBelow(scope, above)
  {
    var n := |above| + 1;
    LowerConcat(above, "/");
    if StartsWith(Lower(scope), Lower(above) + "/") {
      var rest := scope[n..];
      LowerConcat(above + "/", rest);
      assert Lower(scope) == Lower(scope)[..n] + Lower(scope)[n..];
      assert Lower(scope)[n..] == Lower(rest);
      assert EqIgnoreCase(scope, above + "/" + rest);
    }
    if rest: string :| EqIgnoreCase(scope, above + "/" + rest) {
      LowerConcat(above + "/", rest);
    }
  }

  /** What the sweep of a scope removes: what this function granted below it and has expired. */
  lemma DueMeans(scope: string, a: Assignment, now: int, space: Spaces)
    requires !space('e')
    ensures Due(scope, a, now, space) <==>
            IsBelow(a.scope, scope) && exists expires: int :: expires <= now && IsGrantUntil(a, expires, space)
  {
    BelowMeans(a.scope, scope);
    forall expires: int
      ensures ExpiresAt(a, space) == Some(expires) <==> IsGrantUntil(a, expires, space)
    {
      ExpiresAtMeans(a, expires, space);
    }
    if ExpiresAt(a, space).Some? {
      assert IsGrantUntil(a, ExpiresAt(a, space).value, space);
    }
  }

  /** One deletion attempted: which assignment of which scope's listing. */
  datatype Attempt = Attempt(scope: nat, index: nat)

  /** Which assignments are due for a scope. */
  type DueTest = (string, Assignment) -> bool

  function DueIn(scope: string, at: nat, listed: seq<Assignment>, due: DueTest): seq<Attempt> {
    if listed == [] then []
    else
      var n := |listed| - 1;
      DueIn(scope, at, listed[..n], due) + if due(scope, listed[n]) then [Attempt(at, n)] else []
  }

  type Listings = nat -> Result<seq<Assignment>>

  /** What the sweep attempts in a scope, given its listing. */
  function DueOf(scope: string, at: nat, listing: Result<seq<Assignment>>, due: DueTest): seq<Attempt> {
    match listing
    case Err => []
    case Ok(listed) => DueIn(scope, at, listed, due)
  }

  /** What the sweep of the first scopes attempts. */
  function DueUpTo(scopes: seq<string>, n: nat, listings: Listings, due: DueTest): seq<Attempt>
    requires n <= |scopes|
  {
    if n == 0 then []
    else DueUpTo(scopes, n - 1, listings, due) + DueOf(scopes[n - 1], n - 1, listings(n - 1), due)
  }

  ghost predicate AllListed(listings: Listings, n: nat) {
    forall i: nat :: i < n ==> listings(i).Ok?
  }

  lemma AllListedNext(listings: Listings, n: nat)
    ensures AllListed(listings, n + 1) <==> AllListed(listings, n) && listings(n).Ok?
  {
  }

  predicate AllDeleted(attempts: seq<Attempt>, deletes: Attempt -> bool) {
    forall a <- attempts :: deletes(a)
  }

  lemma AllDeletedConcat(a: seq<Attempt>, b: seq<Attempt>, deletes: Attempt -> bool)
    ensures AllDeleted(a + b, deletes) <==> AllDeleted(a, deletes) && AllDeleted(b, deletes)
  {
  }

  /** Removes what is due in one scope's listing. */
  method ExpireListed(scope: string, at: nat, listing: Result<seq<Assignment>>, deletes: Attempt -> bool, due: DueTest)
      returns (attempts: seq<Attempt>, failures: nat)
    ensures attempts == DueOf(scope, at, listing, due)
    ensures failures == 0 <==> listing.Ok? && AllDeleted(attempts, deletes)
  {
    attempts, failures := [], 0;
    if listing.Err? {
      return [], 1;
    }
    var listed := listing.value;
    for j := 0 to |listed|
      invariant attempts == DueIn(scope, at, listed[..j], due)
      invariant failures == 0 <==> AllDeleted(attempts, deletes)
    {
      assert listed[..j + 1][..j] == listed[..j];
      if due(scope, listed[j]) {
        var attempt := Attempt(at, j);
        AllDeletedConcat(attempts, [attempt], deletes);
        assert AllDeleted([attempt], deletes) <==> deletes(attempt) by {
          assert attempt in [attempt];
        }
        if !deletes(attempt) {
          failures := failures + 1;
        }
        attempts := attempts + [attempt];
      }
    }
    assert listed[..|listed|] == listed;
  }

  /** Removes what is due in every scope, whatever fails on the way. */
  method ExpireScopes(scopes: seq<string>, listings: Listings, deletes: Attempt -> bool, due: DueTest)
      returns (attempts: seq<Attempt>, ok: bool)
    ensures attempts == DueUpTo(scopes, |scopes|, listings, due)
    ensures ok <==> AllListed(listings, |scopes|) && AllDeleted(attempts, deletes)
  {
    attempts := [];
    var failures: nat := 0;
    for i := 0 to |scopes|
      invariant attempts == DueUpTo(scopes, i, listings, due)
      invariant failures == 0 <==> AllListed(listings, i) && AllDeleted(attempts, deletes)
    {
      var more, failed := ExpireListed(scopes[i], i, listings(i), deletes, due);
      AllListedNext(listings, i);
      AllDeletedConcat(attempts, more, deletes);
      attempts, failures := attempts + more, failures + failed;
    }
    ok := failures == 0;
  }

  lemma {:induction false} DueInMeans(scope: string, at: nat, listed: seq<Assignment>, due: DueTest, a: Attempt)
    ensures a in DueIn(scope, at, listed, due) <==>
            a.scope == at && a.index < |listed| && due(scope, listed[a.index])
  {
    if listed != [] {
      DueInMeans(scope, at, listed[..|listed| - 1], due, a);
    }
  }

  /** An attempt at an assignment listed and due. */
  predicate DueListed(scope: string, at: nat, listing: Result<seq<Assignment>>, due: DueTest, a: Attempt) {
    a.scope == at && listing.Ok? && a.index < |listing.value| && due(scope, listing.value[a.index])
  }

  lemma DueOfMeans(scope: string, at: nat, listing: Result<seq<Assignment>>, due: DueTest, a: Attempt)
    ensures a in DueOf(scope, at, listing, due) <==> DueListed(scope, at, listing, due, a)
  {
    if listing.Ok? {
      DueInMeans(scope, at, listing.value, due, a);
    }
  }

  lemma DueNext(scopes: seq<string>, n: nat, listings: Listings, due: DueTest, a: Attempt,
                front: seq<Attempt>, last: seq<Attempt>)
    requires n < |scopes|
    requires a in front <==> a.scope < n && DueListed(scopes[a.scope], a.scope, listings(a.scope), due, a)
    requires a in last <==> DueListed(scopes[n], n, listings(n), due, a)
    ensures a in front + last <==>
            a.scope < n + 1 && DueListed(scopes[a.scope], a.scope, listings(a.scope), due, a)
  {
  }

  lemma {:induction false} DueUpToMeans(scopes: seq<string>, n: nat, listings: Listings, due: DueTest, a: Attempt)
    requires n <= |scopes|
    ensures a in DueUpTo(scopes, n, listings, due) <==>
            a.scope < n && DueListed(scopes[a.scope], a.scope, listings(a.scope), due, a)
  {
    if n > 0 {
      DueUpToMeans(scopes, n - 1, listings, due, a);
      DueOfMeans(scopes[n - 1], n - 1, listings(n - 1), due, a);
      DueNext(scopes, n - 1, listings, due, a, DueUpTo(scopes, n - 1, listings, due),
              DueOf(scopes[n - 1], n - 1, listings(n - 1), due));
    }
  }

  /** The sweep attempts to delete exactly the expired function-made assignments strictly below
      each scope whose listing succeeded, whatever fails, and ends well exactly if nothing did. */
  method Expire(scopes: seq<string>, listings: Listings, deletes: Attempt -> bool, now: int, space: Spaces)
      returns (attempts: seq<Attempt>, ok: bool)
    ensures forall a: Attempt :: a in attempts <==>
              && a.scope < |scopes| && listings(a.scope).Ok?
              && a.index < |listings(a.scope).value|
              && Due(scopes[a.scope], listings(a.scope).value[a.index], now, space)
    ensures ok <==> AllListed(listings, |scopes|) && AllDeleted(attempts, deletes)
  {
    var due := (scope: string, a: Assignment) => Due(scope, a, now, space);
    attempts, ok := ExpireScopes(scopes, listings, deletes, due);
    forall a: Attempt
      ensures a in attempts <==>
              a.scope < |scopes| && DueListed(scopes[a.scope], a.scope, listings(a.scope), due, a)
    {
      DueUpToMeans(scopes, |scopes|, listings, due, a);
    }
  }

  // ---------------------------------------------------------------------------------------
  // Granting on one VM. Azure has at most one assignment of a role to a principal there.

  datatype Key = Key(principal: string, role: Role)

  /** An assignment and its expiry, if this function made it. */
  datatype Entry = Entry(name: string, expires: Option<int>)

  type Access = map<Key, Entry>

  predicate IsGrant(access: Access, k: Key, now: int) {
    k in access && access[k].expires.Some? && access[k].expires.value > now
  }

  /** Creates or updates the assignment of the name; Err if the role is assigned under another. */
  function Put(access: Access, k: Key, name: string, expires: int): Result<Access> {
    if k in access && access[k].name != name then Err
    else Ok(access[k := Entry(name, Some(expires))])
  }

  function Max(a: int, b: int): int {
    if a >= b then a else b
  }

  /** A grant that read `read`, wrote to what was then `atWrite` and, if somebody had created the
      assignment in between, read `again` and wrote to that. */
  function Grant(read: Access, atWrite: Access, again: Access, k: Key, newName: string, asked: int, now: int)
      : Result<Access>
  {
    var existing := IsGrant(read, k, now);
    var name := if existing then read[k].name else newName;
    var expires := Max(asked, if existing then read[k].expires.value else 0);
    match Put(atWrite, k, name, expires)
    case Ok(after) => Ok(after)
    case Err =>
      if existing || !IsGrant(again, k, now) then Err
      else Put(again, k, again[k].name, Max(expires, again[k].expires.value))
  }

  /** Without others in between, a grant that succeeds ends no earlier than asked nor than the
      unexpired grant before it, and changes nothing else. It succeeds exactly if there is no
      assignment or an unexpired grant. */
  lemma GrantNeverShortens(access: Access, k: Key, newName: string, asked: int, now: int)
    requires asked > now >= 0 && forall key <- access :: access[key].name != newName
    ensures var result := Grant(access, access, access, k, newName, asked, now);
            && (result.Ok? <==> k !in access || IsGrant(access, k, now))
            && (result.Ok? ==>
                  && result.value - {k} == access - {k} && IsGrant(result.value, k, now)
                  && result.value[k].expires.value ==
                     if IsGrant(access, k, now) then Max(asked, access[k].expires.value) else asked)
  {
  }

  /** Two grants that both found none: the one that comes second to write extends the first's
      assignment, so the access ends at the later of the two. */
  lemma CreationRaceKeepsTheLater(read: Access, k: Key, first: string, second: string, asked1: int, asked2: int, now: int)
    requires k !in read && first != second && asked1 > now >= 0 && asked2 > now
    ensures var after1 := Grant(read, read, read, k, first, asked1, now);
            && after1.Ok?
            && var after2 := Grant(read, after1.value, after1.value, k, second, asked2, now);
            && after2.Ok? && after2.value == read[k := Entry(first, Some(Max(asked1, asked2)))]
  {
  }

  /** What a revoke or grant may remove: expired grants, and on a revoke the principal's. */
  predicate Removable(access: Access, k: Key, listed: seq<Key>, principal: string, revoke: bool, now: int) {
    && k in listed && k in access && access[k].expires.Some?
    && (access[k].expires.value <= now || (revoke && k.principal == principal))
  }

  /** What the removal loop leaves after the first of the listed, and whether it goes on. */
  function Removed(access: Access, listed: seq<Key>, principal: string, revoke: bool, now: int, deletes: Key -> bool)
      : (Access, bool)
    requires forall k <- listed :: k in access && access[k].expires.Some?
  {
    if listed == [] then (access, true)
    else
      var n := |listed| - 1;
      var (left, ok) := Removed(access, listed[..n], principal, revoke, now, deletes);
      var k := listed[n];
      if !ok || !(access[k].expires.value <= now || (revoke && k.principal == principal)) then (left, ok)
      else if deletes(k) then (left - {k}, true)
      else (left, !(revoke && k.principal == principal))
  }

  /** Anyone's expired grants and, on a revoke, all of the principal's are removed, in the order
      listed. Only a failure to remove one of the latter stops it. */
  lemma {:induction false} RemovedMeans(
      access: Access, listed: seq<Key>, principal: string, revoke: bool, now: int, deletes: Key -> bool)
    requires forall k <- listed :: k in access && access[k].expires.Some?
    ensures var (left, ok) := Removed(access, listed, principal, revoke, now, deletes);
            && (forall k <- access :: k !in left ==> Removable(access, k, listed, principal, revoke, now) && deletes(k))
            && (forall k <- left :: k in access && left[k] == access[k])
            && (ok ==> forall k <- listed :: revoke && k.principal == principal ==> k !in left)
            && (ok ==> forall k <- listed :: access[k].expires.value <= now && deletes(k) ==> k !in left)
            && (!ok ==> revoke && exists k <- listed :: k.principal == principal && !deletes(k))
  {
    if listed != [] {
      var n := |listed| - 1;
      RemovedMeans(access, listed[..n], principal, revoke, now, deletes);
      assert listed == listed[..n] + [listed[n]];
    }
  }

  lemma {:induction false} RemovedStops(
      access: Access, listed: seq<Key>, i: nat, principal: string, revoke: bool, now: int, deletes: Key -> bool)
    requires forall k <- listed :: k in access && access[k].expires.Some?
    requires i <= |listed| && !Removed(access, listed[..i], principal, revoke, now, deletes).1
    ensures Removed(access, listed, principal, revoke, now, deletes) ==
            Removed(access, listed[..i], principal, revoke, now, deletes)
    decreases |listed|
  {
    if i == |listed| {
      assert listed[..i] == listed;
    } else {
      var n := |listed| - 1;
      assert listed[..n][..i] == listed[..i];
      RemovedStops(access, listed[..n], i, principal, revoke, now, deletes);
    }
  }

  /** The removal loop. */
  method Remove(access: Access, listed: seq<Key>, principal: string, revoke: bool, now: int, deletes: Key -> bool)
      returns (left: Access, ok: bool)
    requires forall k <- listed :: k in access && access[k].expires.Some?
    ensures (left, ok) == Removed(access, listed, principal, revoke, now, deletes)
    ensures forall k <- access :: k !in left ==> Removable(access, k, listed, principal, revoke, now) && deletes(k)
    ensures forall k <- left :: k in access && left[k] == access[k]
    ensures ok ==> forall k <- listed :: revoke && k.principal == principal ==> k !in left
    ensures ok ==> forall k <- listed :: access[k].expires.value <= now && deletes(k) ==> k !in left
    ensures !ok ==> revoke && exists k <- listed :: k.principal == principal && !deletes(k)
  {
    left, ok := access, true;
    for i := 0 to |listed|
      invariant ok && (left, true) == Removed(access, listed[..i], principal, revoke, now, deletes)
    {
      assert listed[..i + 1][..i] == listed[..i];
      var k := listed[i];
      var own := k.principal == principal;
      if access[k].expires.value <= now || (revoke && own) {
        if deletes(k) {
          left := left - {k};
        } else if revoke && own {
          RemovedStops(access, listed, i + 1, principal, revoke, now, deletes);
          RemovedMeans(access, listed, principal, revoke, now, deletes);
          return left, false;
        }
      }
    }
    assert listed[..|listed|] == listed;
    RemovedMeans(access, listed, principal, revoke, now, deletes);
  }

  /** An invocation whose guards passed. `listed` are the assignments on the VM that this function
      made, in the order reported. */
  datatype Invocation = Invocation(
    listed: seq<Key>, k: Key, revoke: bool, newName: string, asked: int, now: int, deletes: Key -> bool)

  /** What every invocation can rely on: Azure lists all the grants, and a new name is new. */
  ghost predicate Sound(access: Access, i: Invocation) {
    && i.asked > i.now >= 0
    && (forall key :: key in i.listed <==> key in access && access[key].expires.Some?)
    && forall key <- access :: access[key].name != i.newName
  }

  /** The access after an execute with no others about, and whether it ended well. */
  ghost function Executed(access: Access, i: Invocation): (Access, bool)
    requires Sound(access, i)
  {
    var (left, ok) := Removed(access, i.listed, i.k.principal, i.revoke, i.now, i.deletes);
    if i.revoke || !ok then (left, ok)
    else match Grant(access, left, left, i.k, i.newName, i.asked, i.now)
      case Ok(after) => (after, true)
      case Err => (left, false)
  }

  /** Nothing appears but the grant asked for. A revoke that ends well leaves the principal no grant. A grant ends well exactly if the role is
      free: unassigned, granted, or granted once and the expired assignment could be removed; it then
      ends at the later of what was asked and had. */
  lemma ExecutedMeans(access: Access, i: Invocation)
    requires Sound(access, i)
    ensures var (after, ok) := Executed(access, i);
            && (i.revoke && ok ==> forall key <- after :: key.principal == i.k.principal ==> after[key].expires.None?)
            && (!i.revoke ==>
                  (ok <==> i.k !in access || IsGrant(access, i.k, i.now) ||
                           (access[i.k].expires.Some? && i.deletes(i.k))))
            && (!i.revoke && ok ==>
                  && IsGrant(after, i.k, i.now)
                  && after[i.k].expires.value ==
                     if IsGrant(access, i.k, i.now) then Max(i.asked, access[i.k].expires.value) else i.asked)
            && (forall key <- after :: key in access || (!i.revoke && key == i.k))
  {
    RemovedMeans(access, i.listed, i.k.principal, i.revoke, i.now, i.deletes);
  }

  /** An unexpired grant that isn't revoked is still there after an execute, ended well or not, and ends
      no earlier; other than the one asked for it doesn't change at all, nor does any assignment this
      function didn't make. */
  lemma ExecutedKeeps(access: Access, i: Invocation, key: Key)
    requires Sound(access, i) && key in access
    ensures var after := Executed(access, i).0;
            && (access[key].expires.None? ==> key in after && after[key] == access[key])
            && (IsGrant(access, key, i.now) && !(i.revoke && key.principal == i.k.principal) ==>
                  && IsGrant(after, key, i.now) && after[key].expires.value >= access[key].expires.value
                  && (key != i.k ==> after[key] == access[key]))
  {
    RemovedMeans(access, i.listed, i.k.principal, i.revoke, i.now, i.deletes);
  }

  method Execute(access: Access, i: Invocation) returns (after: Access, ok: bool)
    requires Sound(access, i)
    ensures (after, ok) == Executed(access, i)
  {
    after, ok := Remove(access, i.listed, i.k.principal, i.revoke, i.now, i.deletes);
    if i.revoke || !ok {
      return;
    }
    match Grant(access, after, after, i.k, i.newName, i.asked, i.now)
    case Ok(granted) => after := granted;
    case Err => ok := false;
  }

  // ---------------------------------------------------------------------------------------
  // Executes one after another.

  /** Each execute finds what the last one left, no earlier than that one. */
  ghost predicate IsRun(access: Access, run: seq<Invocation>, start: int)
    decreases |run|
  {
    run == [] ||
    (Sound(access, run[0]) && run[0].now >= start && IsRun(Executed(access, run[0]).0, run[1..], run[0].now))
  }

  ghost function After(access: Access, run: seq<Invocation>, start: int): Access
    requires IsRun(access, run, start)
    decreases |run|
  {
    if run == [] then access else After(Executed(access, run[0]).0, run[1..], run[0].now)
  }

  /** Over any run of grants and revokes, whatever removals fail, a grant keeps at least its expiry
      until then, or until its principal is revoked. */
  lemma {:induction false} GrantsLast(access: Access, run: seq<Invocation>, start: int, key: Key, expires: int)
    requires IsRun(access, run, start)
    requires key in access && access[key].expires.Some? && access[key].expires.value >= expires
    requires forall i <- run :: i.now < expires && !(i.revoke && i.k.principal == key.principal)
    ensures var after := After(access, run, start);
            key in after && after[key].expires.Some? && after[key].expires.value >= expires
    decreases |run|
  {
    if run != [] {
      assert run[0] in run;
      ExecutedKeeps(access, run[0], key);
      GrantsLast(Executed(access, run[0]).0, run[1..], run[0].now, key, expires);
    }
  }

  /** No run touches an assignment this function didn't make. */
  lemma {:induction false} OtherAssignmentsLast(access: Access, run: seq<Invocation>, start: int, key: Key)
    requires IsRun(access, run, start) && key in access && access[key].expires.None?
    ensures var after := After(access, run, start); key in after && after[key] == access[key]
    decreases |run|
  {
    if run != [] {
      ExecutedKeeps(access, run[0], key);
      OtherAssignmentsLast(Executed(access, run[0]).0, run[1..], run[0].now, key);
    }
  }
}
