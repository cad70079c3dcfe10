/**
  Azure resource IDs: parsing, printing and comparing them
  (functions/crates/azure/src/arm.rs:41-189).

  Which characters beyond ASCII are letters or digits is left open as an `Alphabet`.
 */
module ResourceIds {
  import opened Strings
  import opened Wrappers

  // ---------------------------------------------------------------------------------------
  // ASCII case.

  function LowerChar(c: char): char {
    if 'A' <= c <= 'Z' then c + 32 as char else c
  }

  /** The letters A to Z become a to z, in order, and nothing else changes. */
  lemma LowerCharMeans(c: char)
    ensures 'A' <= c <= 'Z' ==> LowerChar(c) as int - 'a' as int == c as int - 'A' as int
    ensures !('A' <= c <= 'Z') ==> LowerChar(c) == c
  {
  }

  function Lower(s: string): string {
    seq(|s|, i requires 0 <= i < |s| => LowerChar(s[i]))
  }

  predicate EqIgnoreCase(a: string, b: string) {
    Lower(a) == Lower(b)
  }

  lemma LowerConcat(a: string, b: string)
    ensures Lower(a + b) == Lower(a) + Lower(b)
  {
  }

  lemma LowerIsIdempotent(s: string)
    ensures Lower(Lower(s)) == Lower(s)
  {
  }

  // ---------------------------------------------------------------------------------------
  // Splitting at '/'.

  function LowerAll(parts: seq<string>): seq<string> {
    seq(|parts|, i requires 0 <= i < |parts| => Lower(parts[i]))
  }

  lemma {:induction false} SplitOfLower(s: string)
    ensures SplitAt(Lower(s), '/') == LowerAll(SplitAt(s, '/'))
  {
    if s != "" {
      SplitOfLower(s[1..]);
      var rest := SplitAt(s[1..], '/');
      assert Lower(s)[1..] == Lower(s[1..]);
      assert Lower(s)[0] == LowerChar(s[0]);
      if s[0] != '/' {
        assert LowerChar(s[0]) != '/';
        assert Lower([s[0]] + rest[0]) == [LowerChar(s[0])] + Lower(rest[0]);
      }
    }
  }

  // ---------------------------------------------------------------------------------------
  // The parts of a resource ID.

  predicate AsciiAlnum(c: char) {
    'a' <= c <= 'z' || 'A' <= c <= 'Z' || '0' <= c <= '9'
  }

  predicate HexDigit(c: char) {
    'a' <= c <= 'f' || 'A' <= c <= 'F' || '0' <= c <= '9'
  }

  predicate IsGuid(s: string) {
    |s| == 36 && forall i :: 0 <= i < |s| ==>
      if i == 8 || i == 13 || i == 18 || i == 23 then s[i] == '-' else HexDigit(s[i])
  }

  predicate NameChar(c: char) {
    AsciiAlnum(c) || c == '-' || c == '_' || c == '.'
  }

  predicate IsName(s: string) {
    1 <= |s| <= 80 && AsciiAlnum(s[0]) && forall c <- s :: NameChar(c)
  }

  type Alphabet = char -> bool

  predicate GroupChar(c: char, beyond: Alphabet) {
    NameChar(c) || c == '(' || c == ')' || (c > '\U{7F}' && beyond(c))
  }

  /** The length of a string in UTF-8. */
  function ByteLen(s: string): nat {
    if s == "" then 0
    else (if s[0] <= '\U{7F}' then 1 else if s[0] <= '\U{7FF}' then 2 else if s[0] <= '\U{FFFF}' then 3 else 4) +
         ByteLen(s[1..])
  }

  lemma ByteLenOfOne(c: char)
    ensures var code := c as int;
            ByteLen([c]) == if code < 128 then 1 else if code < 2048 then 2 else if code < 65536 then 3 else 4
  {
  }

  lemma {:induction false} ByteLenConcat(a: string, b: string)
    ensures ByteLen(a + b) == ByteLen(a) + ByteLen(b) && ByteLen("") == 0
  {
    if a == "" {
      assert a + b == b;
    } else {
      assert (a + b)[1..] == a[1..] + b;
      ByteLenConcat(a[1..], b);
    }
  }

  predicate IsResourceGroup(s: string, beyond: Alphabet) {
    s != "" && ByteLen(s) <= 90 && s[|s| - 1] != '.' && forall c <- s :: GroupChar(c, beyond)
  }

  /** `0-9`, `A-Z` and `a-z` by their codes. */
  predicate IsAlnumCode(code: int) {
    48 <= code <= 57 || 65 <= code <= 90 || 97 <= code <= 122
  }

  /** A name is 1 to 80 letters, digits, dashes, underscores and dots, and starts with one of the first
      two. */
  lemma NamesMean(s: string)
    ensures IsName(s) <==>
            && 1 <= |s| <= 80 && IsAlnumCode(s[0] as int)
            && forall c <- s :: IsAlnumCode(c as int) || c as int in {45, 46, 95}
  {
  }

  /** A resource group is 1 to 90 bytes of those, parentheses and characters beyond ASCII that are
      letters or digits, and doesn't end in a dot. */
  lemma GroupsMean(s: string, beyond: Alphabet)
    ensures IsResourceGroup(s, beyond) <==>
            && s != "" && ByteLen(s) <= 90 && s[|s| - 1] as int != 46
            && forall c <- s :: IsAlnumCode(c as int) || c as int in {40, 41, 45, 46, 95} || (c as int > 127 && beyond(c))
  {
  }

  /** No name or resource group can end a path segment, start a query or fragment, be an escape, or
      name its own or its parent segment. */
  lemma PartsAreSafe(s: string, beyond: Alphabet)
    requires IsName(s) || IsResourceGroup(s, beyond)
    ensures '/' !in s && '?' !in s && '#' !in s && '%' !in s && s != "." && s != ".."
  {
    assert forall c <- s :: GroupChar(c, beyond);
  }

  predicate IsHex(s: string, length: nat) {
    |s| == length && forall i :: 0 <= i < |s| ==> HexDigit(s[i])
  }

  lemma HexDigitMeans(c: char)
    ensures HexDigit(c) <==> 48 <= c as int <= 57 || 65 <= c as int <= 70 || 97 <= c as int <= 102
  {
  }

  function FiveGroups(a: string, b: string, c: string, d: string, e: string): string {
    a + "-" + b + "-" + c + "-" + d + "-" + e
  }

  lemma GroupsMakeGuid(a: string, b: string, c: string, d: string, e: string)
    requires IsHex(a, 8) && IsHex(b, 4) && IsHex(c, 4) && IsHex(d, 4) && IsHex(e, 12)
    ensures IsGuid(FiveGroups(a, b, c, d, e))
  {
  }

  lemma GuidHasGroups(s: string)
    requires IsGuid(s)
    ensures IsHex(s[..8], 8) && IsHex(s[9..13], 4) && IsHex(s[14..18], 4) && IsHex(s[19..23], 4) && IsHex(s[24..], 12)
    ensures s == FiveGroups(s[..8], s[9..13], s[14..18], s[19..23], s[24..])
  {
  }

  /** A GUID is groups of 8, 4, 4, 4 and 12 hex digits with dashes between. */
  lemma GuidsMean(s: string)
    ensures IsGuid(s) <==>
            exists a, b, c, d, e ::
              && IsHex(a, 8) && IsHex(b, 4) && IsHex(c, 4) && IsHex(d, 4) && IsHex(e, 12)
              && s == FiveGroups(a, b, c, d, e)
  {
    if IsGuid(s) {
      GuidHasGroups(s);
    }
    if a, b, c, d, e :| IsHex(a, 8) && IsHex(b, 4) && IsHex(c, 4) && IsHex(d, 4) && IsHex(e, 12) &&
                        s == FiveGroups(a, b, c, d, e) {
      GroupsMakeGuid(a, b, c, d, e);
    }
  }

  datatype Kind = Kind(namespace: string, kind: string)

  predicate HasNoSlash(k: Kind) {
    '/' !in k.namespace && '/' !in k.kind
  }

  /** Kinds that can be told apart in an ID. */
  predicate Distinct(kinds: seq<Kind>) {
    && (forall k <- kinds :: HasNoSlash(k))
    && forall a, b | a in kinds && b in kinds :: Spelled(a, b.namespace, b.kind) ==> a == b
  }

  /** The first of the kinds with the spelling, in any case. */
  function FindKind(kinds: seq<Kind>, namespace: string, kind: string): Option<Kind> {
    if kinds == [] then None
    else if Spelled(kinds[0], namespace, kind) then Some(kinds[0])
    else FindKind(kinds[1..], namespace, kind)
  }

  predicate Spelled(k: Kind, namespace: string, kind: string) {
    EqIgnoreCase(namespace, k.namespace) && EqIgnoreCase(kind, k.kind)
  }

  lemma {:induction false} FindKindFinds(kinds: seq<Kind>, namespace: string, kind: string)
    ensures var k := FindKind(kinds, namespace, kind);
            && (k.Some? ==> k.value in kinds && Spelled(k.value, namespace, kind))
            && (k.None? ==> forall k <- kinds :: !Spelled(k, namespace, kind))
  {
    if kinds != [] {
      FindKindFinds(kinds[1..], namespace, kind);
    }
  }

  datatype ResourceId = ResourceId(subscription: string, resourceGroup: string, kind: Kind, name: string) {
    function ResourceGroupId(): string {
      "/subscriptions/" + subscription + "/resourceGroups/" + resourceGroup
    }

    function Id(): string {
      ResourceGroupId() + "/providers/" + kind.namespace + "/" + kind.kind + "/" + name
    }

    /** The parts of the ID after its first slash. */
    function Parts(): seq<string> {
      ["subscriptions", subscription, "resourceGroups", resourceGroup, "providers", kind.namespace, kind.kind, name]
    }

    function Child(childKind: string, childName: string): Option<string> {
      if IsName(childName) then Some(Id() + "/" + childKind + "/" + childName) else None
    }

    function Sibling(siblingKind: Kind, siblingName: string): Option<ResourceId> {
      if IsName(siblingName) then Some(ResourceId(subscription, resourceGroup, siblingKind, siblingName)) else None
    }

    predicate Is(id: string) {
      EqIgnoreCase(id, Id())
    }

    predicate WellFormed(kinds: seq<Kind>, beyond: Alphabet) {
      && IsGuid(subscription) && Lower(subscription) == subscription
      && IsResourceGroup(resourceGroup, beyond)
      && kind in kinds && IsName(name)
    }
  }

  predicate KeysFit(parts: seq<string>)
    requires |parts| == 8
  {
    EqIgnoreCase(parts[0], "subscriptions") && EqIgnoreCase(parts[2], "resourceGroups") &&
    EqIgnoreCase(parts[4], "providers")
  }

  function FromParts(parts: seq<string>, kinds: seq<Kind>, beyond: Alphabet): Option<ResourceId> {
    if |parts| != 8 then None
    else
      var kind := FindKind(kinds, parts[5], parts[6]);
      if kind.Some? && KeysFit(parts) && IsGuid(parts[1]) && IsResourceGroup(parts[3], beyond) && IsName(parts[7])
      then Some(ResourceId(Lower(parts[1]), parts[3], kind.value, parts[7]))
      else None
  }

  function Parse(id: string, kinds: seq<Kind>, beyond: Alphabet): Option<ResourceId> {
    if id == "" || id[0] != '/' then None else FromParts(SplitAt(id[1..], '/'), kinds, beyond)
  }

  // ---------------------------------------------------------------------------------------
  // The kinds the functions accept.

  const DISK := Kind("Microsoft.Compute", "disks")
  const VIRTUAL_MACHINE := Kind("Microsoft.Compute", "virtualMachines")
  const MANAGED_CLUSTER := Kind("Microsoft.ContainerService", "managedClusters")
  const LOAD_BALANCER := Kind("Microsoft.Network", "loadBalancers")
  const PUBLIC_IP := Kind("Microsoft.Network", "publicIPAddresses")
  const BASTION_HOST := Kind("Microsoft.Network", "bastionHosts")
  const POSTGRES_FLEXIBLE_SERVER := Kind("Microsoft.DBforPostgreSQL", "flexibleServers")
  const MYSQL_FLEXIBLE_SERVER := Kind("Microsoft.DBforMySQL", "flexibleServers")

  const KINDS := [DISK, VIRTUAL_MACHINE, MANAGED_CLUSTER, LOAD_BALANCER, PUBLIC_IP, BASTION_HOST,
                  POSTGRES_FLEXIBLE_SERVER, MYSQL_FLEXIBLE_SERVER]

  lemma SpelledAlikeIsAsLong(k: Kind, namespace: string, kind: string)
    requires Spelled(k, namespace, kind)
    ensures |k.namespace| == |namespace| && |k.kind| == |kind|
  {
    SameLowerChars(namespace, k.namespace);
    SameLowerChars(kind, k.kind);
  }

  /** The kinds differ in the lengths of their spelling. */
  function OfLengths(namespace: nat, kind: nat): Kind {
    if namespace == 26 then MANAGED_CLUSTER
    else if namespace == 25 then POSTGRES_FLEXIBLE_SERVER
    else if namespace == 20 then MYSQL_FLEXIBLE_SERVER
    else if kind == 5 then DISK
    else if kind == 12 then BASTION_HOST
    else if kind == 13 then LOAD_BALANCER
    else if kind == 15 then VIRTUAL_MACHINE
    else PUBLIC_IP
  }

  lemma LengthsTellKinds(k: Kind)
    requires k in KINDS
    ensures k == OfLengths(|k.namespace|, |k.kind|)
  {
  }

  lemma ComputeHasNoSlash()
    ensures HasNoSlash(DISK) && HasNoSlash(VIRTUAL_MACHINE)
  {
  }

  lemma NetworkHasNoSlash()
    ensures HasNoSlash(LOAD_BALANCER) && HasNoSlash(PUBLIC_IP) && HasNoSlash(BASTION_HOST)
  {
  }

  lemma ClusterHasNoSlash()
    ensures HasNoSlash(MANAGED_CLUSTER)
  {
  }

  lemma ServersHaveNoSlash()
    ensures HasNoSlash(POSTGRES_FLEXIBLE_SERVER) && HasNoSlash(MYSQL_FLEXIBLE_SERVER)
  {
  }

  /** No two of the kinds are spelled alike, so the round trips below hold for any choice of them. */
  lemma KindsAreDistinct(kinds: seq<Kind>)
    requires forall k <- kinds :: k in KINDS
    ensures Distinct(kinds)
  {
    ComputeHasNoSlash();
    NetworkHasNoSlash();
    ClusterHasNoSlash();
    ServersHaveNoSlash();
    forall k | k in kinds
      ensures k == OfLengths(|k.namespace|, |k.kind|) && HasNoSlash(k)
    {
      LengthsTellKinds(k);
    }
    forall a, b | a in kinds && b in kinds && Spelled(a, b.namespace, b.kind)
      ensures a == b
    {
      SpelledAlikeIsAsLong(a, b.namespace, b.kind);
    }
  }

  // ---------------------------------------------------------------------------------------
  // Round trips.

  lemma JoinOfFour(a: string, b: string, c: string, d: string)
    ensures Join([a, b, c, d], '/') == a + "/" + b + "/" + c + "/" + d
  {
    assert [a, b, c, d][1..] == [b, c, d] && [b, c, d][1..] == [c, d] && [c, d][1..] == [d];
    assert Join([c, d], '/') == c + "/" + d;
    assert Join([b, c, d], '/') == b + "/" + (c + "/" + d);
  }

  lemma {:induction false} JoinOfConcat(a: seq<string>, b: seq<string>)
    requires a != [] && b != []
    ensures Join(a + b, '/') == Join(a, '/') + "/" + Join(b, '/')
  {
    if |a| == 1 {
      assert (a + b)[1..] == b;
    } else {
      JoinOfConcat(a[1..], b);
      assert (a + b)[1..] == a[1..] + b;
    }
  }

  lemma Regroup(sep: string, a: string, b: string, c: string, d: string, e: string, f: string, g: string, h: string)
    ensures (sep + a + sep) + b + (sep + c + sep) + d + (sep + e + sep) + f + sep + g + sep + h ==
            sep + ((a + sep + b + sep + c + sep + d) + sep + (e + sep + f + sep + g + sep + h))
  {
  }

  lemma IdIsJoined(r: ResourceId)
    ensures r.Id() == "/" + Join(r.Parts(), '/')
  {
    var p := r.Parts();
    JoinOfFour(p[0], p[1], p[2], p[3]);
    JoinOfFour(p[4], p[5], p[6], p[7]);
    assert p == [p[0], p[1], p[2], p[3]] + [p[4], p[5], p[6], p[7]];
    JoinOfConcat([p[0], p[1], p[2], p[3]], [p[4], p[5], p[6], p[7]]);
    Regroup("/", p[0], p[1], p[2], p[3], p[4], p[5], p[6], p[7]);
    Literals();
  }

  lemma Literals()
    ensures "/subscriptions/" == "/" + "subscriptions" + "/"
    ensures "/resourceGroups/" == "/" + "resourceGroups" + "/"
    ensures "/providers/" == "/" + "providers" + "/"
  {
  }

  lemma PartsHaveNoSlash(r: ResourceId, kinds: seq<Kind>, beyond: Alphabet)
    requires r.WellFormed(kinds, beyond) && Distinct(kinds)
    ensures forall p <- r.Parts() :: '/' !in p
  {
  }

  /** No well-formed part can add or remove a path segment. */
  lemma IdHasNineSegments(r: ResourceId, kinds: seq<Kind>, beyond: Alphabet)
    requires r.WellFormed(kinds, beyond) && Distinct(kinds)
    ensures SplitAt(r.Id(), '/') == [""] + r.Parts()
  {
    IdIsJoined(r);
    PartsHaveNoSlash(r, kinds, beyond);
    SplitOfJoin(r.Parts(), '/');
    assert r.Id()[1..] == Join(r.Parts(), '/');
  }

  lemma FromOwnParts(r: ResourceId, kinds: seq<Kind>, beyond: Alphabet)
    requires r.WellFormed(kinds, beyond) && Distinct(kinds)
    ensures FromParts(r.Parts(), kinds, beyond) == Some(r)
  {
    FindKindFinds(kinds, r.kind.namespace, r.kind.kind);
    assert Spelled(r.kind, r.kind.namespace, r.kind.kind);
  }

  /** Parsing a printed ID gives the resource back. */
  lemma ParseOfId(r: ResourceId, kinds: seq<Kind>, beyond: Alphabet)
    requires r.WellFormed(kinds, beyond) && Distinct(kinds)
    ensures Parse(r.Id(), kinds, beyond) == Some(r)
  {
    IdIsJoined(r);
    PartsHaveNoSlash(r, kinds, beyond);
    SplitOfJoin(r.Parts(), '/');
    assert r.Id()[1..] == Join(r.Parts(), '/');
    FromOwnParts(r, kinds, beyond);
  }

  lemma {:induction false} JoinOfLower(parts: seq<string>)
    requires parts != []
    ensures Lower(Join(parts, '/')) == Join(LowerAll(parts), '/')
  {
    if |parts| > 1 {
      JoinOfLower(parts[1..]);
      assert LowerAll(parts)[1..] == LowerAll(parts[1..]);
      LowerConcat(parts[0] + "/", Join(parts[1..], '/'));
      LowerConcat(parts[0], "/");
    }
  }

  lemma LowerOfJoined(parts: seq<string>)
    requires parts != []
    ensures Lower("/" + Join(parts, '/')) == "/" + Join(LowerAll(parts), '/')
  {
    JoinOfLower(parts);
    LowerConcat("/", Join(parts, '/'));
  }

  lemma JoinIgnoresCase(a: seq<string>, b: seq<string>)
    requires a != [] && |a| == |b| && forall i :: 0 <= i < |a| ==> EqIgnoreCase(a[i], b[i])
    ensures EqIgnoreCase("/" + Join(a, '/'), "/" + Join(b, '/'))
  {
    assert LowerAll(a) == LowerAll(b);
    LowerOfJoined(a);
    LowerOfJoined(b);
  }

  lemma FromPartsFits(parts: seq<string>, kinds: seq<Kind>, beyond: Alphabet)
    requires FromParts(parts, kinds, beyond).Some?
    ensures var r := FromParts(parts, kinds, beyond).value;
            && |parts| == 8 && r.WellFormed(kinds, beyond)
            && forall i :: 0 <= i < 8 ==> EqIgnoreCase(parts[i], r.Parts()[i])
  {
    FindKindFinds(kinds, parts[5], parts[6]);
    LowerIsIdempotent(parts[1]);
    LowerGuid(parts[1]);
  }

  /** A resource parsed is well formed and prints as the ID parsed, up to ASCII case. */
  lemma IdOfParse(s: string, kinds: seq<Kind>, beyond: Alphabet)
    requires Parse(s, kinds, beyond).Some?
    ensures var r := Parse(s, kinds, beyond).value;
            r.WellFormed(kinds, beyond) && r.Is(s)
  {
    var r := Parse(s, kinds, beyond).value;
    var parts := SplitAt(s[1..], '/');
    FromPartsFits(parts, kinds, beyond);
    JoinIgnoresCase(parts, r.Parts());
    JoinOfSplit(s[1..], '/');
    assert s == "/" + s[1..];
    IdIsJoined(r);
  }

  lemma LowerGuid(s: string)
    ensures IsGuid(Lower(s)) == IsGuid(s)
  {
    forall i | 0 <= i < |s|
      ensures Lower(s)[i] == LowerChar(s[i]) && HexDigit(LowerChar(s[i])) == HexDigit(s[i])
      ensures Lower(s)[i] == '-' <==> s[i] == '-'
    {
    }
  }

  /** Normalising an ID, by parsing and printing it, does nothing the second time. */
  lemma NormalisingIsIdempotent(s: string, kinds: seq<Kind>, beyond: Alphabet)
    requires Parse(s, kinds, beyond).Some? && Distinct(kinds)
    ensures Parse(Parse(s, kinds, beyond).value.Id(), kinds, beyond) == Parse(s, kinds, beyond)
  {
    IdOfParse(s, kinds, beyond);
    ParseOfId(Parse(s, kinds, beyond).value, kinds, beyond);
  }

  // ---------------------------------------------------------------------------------------
  // Which IDs are accepted.

  lemma SameLowerChars(a: string, b: string)
    requires EqIgnoreCase(a, b)
    ensures |a| == |b| && forall i :: 0 <= i < |a| ==> LowerChar(a[i]) == LowerChar(b[i])
  {
    assert |a| == |Lower(a)| == |Lower(b)| == |b|;
    forall i | 0 <= i < |a|
      ensures LowerChar(a[i]) == LowerChar(b[i])
    {
      assert Lower(a)[i] == LowerChar(a[i]) && Lower(b)[i] == LowerChar(b[i]);
    }
  }

  lemma NameIgnoresCase(a: string, b: string)
    requires EqIgnoreCase(a, b) && IsName(a)
    ensures IsName(b)
  {
    SameLowerChars(a, b);
    forall i | 0 <= i < |b|
      ensures NameChar(b[i])
    {
      assert NameChar(a[i]) && LowerChar(a[i]) == LowerChar(b[i]);
    }
  }

  lemma {:induction false} ByteLenIgnoresCase(a: string, b: string)
    requires EqIgnoreCase(a, b)
    ensures ByteLen(a) == ByteLen(b)
  {
    if a != "" {
      assert Lower(a)[0] == Lower(b)[0];
      assert Lower(a)[1..] == Lower(a[1..]) && Lower(b)[1..] == Lower(b[1..]);
      ByteLenIgnoresCase(a[1..], b[1..]);
    }
  }

  lemma GroupIgnoresCase(a: string, b: string, beyond: Alphabet)
    requires EqIgnoreCase(a, b) && IsResourceGroup(a, beyond)
    ensures IsResourceGroup(b, beyond)
  {
    ByteLenIgnoresCase(a, b);
    SameLowerChars(a, b);
    forall i | 0 <= i < |b|
      ensures GroupChar(b[i], beyond)
    {
      assert GroupChar(a[i], beyond) && LowerChar(a[i]) == LowerChar(b[i]);
    }
    assert LowerChar(a[|a| - 1]) == LowerChar(b[|a| - 1]);
  }

  /** An ID is accepted exactly if it is, up to ASCII case, that of a well-formed resource. */
  lemma AcceptedIds(s: string, kinds: seq<Kind>, beyond: Alphabet)
    requires Distinct(kinds)
    ensures Parse(s, kinds, beyond).Some? <==> exists r: ResourceId :: r.WellFormed(kinds, beyond) && r.Is(s)
  {
    if Parse(s, kinds, beyond).Some? {
      IdOfParse(s, kinds, beyond);
    }
    if r: ResourceId :| r.WellFormed(kinds, beyond) && r.Is(s) {
      AcceptsAnyCase(s, r, kinds, beyond);
    }
  }

  lemma SamePartsIgnoringCase(s: string, r: ResourceId)
    requires r.Is(s) && forall p <- r.Parts() :: '/' !in p
    ensures s != "" && s[0] == '/'
    ensures var parts := SplitAt(s[1..], '/');
            |parts| == 8 && forall i :: 0 <= i < 8 ==> EqIgnoreCase(parts[i], r.Parts()[i])
  {
    var want := r.Parts();
    IdIsJoined(r);
    LowerOfJoined(want);
    assert Lower(s)[0] == '/' && Lower(s)[1..] == Join(LowerAll(want), '/');
    assert Lower(s[1..]) == Lower(s)[1..];
    SplitOfLower(s[1..]);
    JoinOfLower(want);
    SplitOfLower(Join(want, '/'));
    SplitOfJoin(want, '/');
    var parts := SplitAt(s[1..], '/');
    assert LowerAll(parts) == LowerAll(want);
    forall i | 0 <= i < 8
      ensures |parts| == 8 && EqIgnoreCase(parts[i], want[i])
    {
      assert |LowerAll(parts)| == 8 && LowerAll(parts)[i] == LowerAll(want)[i];
    }
  }

  lemma FromPartsInAnyCase(parts: seq<string>, r: ResourceId, kinds: seq<Kind>, beyond: Alphabet)
    requires r.WellFormed(kinds, beyond) && |parts| == 8
    requires forall i :: 0 <= i < 8 ==> EqIgnoreCase(parts[i], r.Parts()[i])
    ensures FromParts(parts, kinds, beyond).Some?
  {
    var want := r.Parts();
    LowerGuid(parts[1]);
    LowerGuid(want[1]);
    NameIgnoresCase(want[7], parts[7]);
    GroupIgnoresCase(want[3], parts[3], beyond);
    assert Spelled(r.kind, parts[5], parts[6]);
    FindKindFinds(kinds, parts[5], parts[6]);
  }

  lemma AcceptsAnyCase(s: string, r: ResourceId, kinds: seq<Kind>, beyond: Alphabet)
    requires Distinct(kinds) && r.WellFormed(kinds, beyond) && r.Is(s)
    ensures Parse(s, kinds, beyond).Some?
  {
    PartsHaveNoSlash(r, kinds, beyond);
    SamePartsIgnoringCase(s, r);
    FromPartsInAnyCase(SplitAt(s[1..], '/'), r, kinds, beyond);
  }

  // ---------------------------------------------------------------------------------------
  // IDs made from others.

  /** A sibling is well formed, in the same resource group, and parses back. */
  lemma SiblingParses(r: ResourceId, kind: Kind, name: string, kinds: seq<Kind>, beyond: Alphabet)
    requires r.WellFormed(kinds, beyond) && Distinct(kinds) && kind in kinds
    ensures r.Sibling(kind, name).Some? <==> IsName(name)
    ensures r.Sibling(kind, name).Some? ==>
              var s := r.Sibling(kind, name).value;
              && s.ResourceGroupId() == r.ResourceGroupId() && s.kind == kind && s.name == name
              && Parse(s.Id(), kinds, beyond) == Some(s)
  {
    if IsName(name) {
      ParseOfId(r.Sibling(kind, name).value, kinds, beyond);
    }
  }

  /** Only names make children. */
  lemma ChildrenHaveNames(r: ResourceId, childKind: string, name: string)
    ensures r.Child(childKind, name).Some? <==> IsName(name)
  {
  }

  lemma Below(a: string, sep: string, b: string, c: string)
    ensures a + sep + b + sep + c == a + sep + (b + sep + c)
  {
  }

  lemma ChildIsJoined(r: ResourceId, childKind: string, name: string)
    requires IsName(name)
    ensures r.Child(childKind, name).value == "/" + Join(r.Parts() + [childKind, name], '/')
  {
    IdIsJoined(r);
    assert [childKind, name][1..] == [name];
    assert Join([childKind, name], '/') == childKind + "/" + name;
    JoinOfConcat(r.Parts(), [childKind, name]);
    Below("/" + Join(r.Parts(), '/'), "/", childKind, name);
  }

  /** A child's ID is the resource's and two more segments, so it isn't itself one of a resource. */
  lemma ChildIsBelow(r: ResourceId, childKind: string, name: string, kinds: seq<Kind>, beyond: Alphabet)
    requires r.WellFormed(kinds, beyond) && Distinct(kinds) && '/' !in childKind && IsName(name)
    ensures SplitAt(r.Child(childKind, name).value, '/') == [""] + r.Parts() + [childKind, name]
    ensures Parse(r.Child(childKind, name).value, kinds, beyond).None?
  {
    var id, parts := r.Child(childKind, name).value, r.Parts() + [childKind, name];
    ChildIsJoined(r, childKind, name);
    PartsHaveNoSlash(r, kinds, beyond);
    assert forall c <- name :: NameChar(c);
    SplitOfJoin(parts, '/');
    assert id[0] == '/' && id[1..] == Join(parts, '/');
  }
}
