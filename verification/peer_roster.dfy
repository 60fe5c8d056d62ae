/**
 The peer roster: whatever the configuration lists and whoever announces, no leg shows two live peers.
 */
module PeerRoster {
  import opened Prelude
  import opened AnnounceNote

  datatype PeerConfig = PeerConfig(name: string, team: string, role: string, status: ReceiveStatus, port: int)

  /** `lastSeen` is `None` for the default time point. */
  datatype PeerEntry = PeerEntry(
    id: string,
    instance: string,
    name: string,
    team: string,
    role: string,
    status: ReceiveStatus,
    port: int,
    online: bool,
    lastSeen: Option<int>)

  /** What one announce tells the roster. */
  datatype Announced = Announced(name: string, team: string, status: ReceiveStatus, port: int, instance: string)
  {
    function Id(): string {
      MakePeerId(port, name, instance)
    }

    /** Every announce the orchestrator passes on has a leg. */
    predicate Placed() {
      port >= 0 || instance != "" || name == ""
    }
  }

  function MakePeerId(port: int, name: string, instance: string): string {
    if instance != "" then "i:" + instance else Printed(port) + ":" + name
  }

  // ----- What the operations mean -----

  function FromConfig(c: PeerConfig): PeerEntry {
    PeerEntry(MakePeerId(c.port, c.name, ""), "", c.name, c.team, c.role, c.status, c.port, false, None)
  }

  function Seeded(configs: seq<PeerConfig>): seq<PeerEntry> {
    if configs == [] then []
    else (if configs[0].name == "" then [] else [FromConfig(configs[0])]) + Seeded(configs[1..])
  }

  /** The configured peers that have a name, in order. */
  function Named(configs: seq<PeerConfig>): seq<PeerConfig> {
    if configs == [] then [] else (if configs[0].name == "" then [] else [configs[0]]) + Named(configs[1..])
  }

  /** The entry says what the configuration does of a peer that has never been heard from. */
  predicate AsConfigured(e: PeerEntry, c: PeerConfig) {
    && e.name == c.name && e.team == c.team && e.role == c.role && e.status == c.status && e.port == c.port
    && !e.online && e.lastSeen == None && e.instance == ""
  }

  lemma ReadFromConfig(c: PeerConfig)
    ensures AsConfigured(FromConfig(c), c)
  {
  }

  lemma {:induction false} SeededAreTheNamed(configs: seq<PeerConfig>)
    ensures |Seeded(configs)| == |Named(configs)|
    ensures forall i :: 0 <= i < |Seeded(configs)| ==> AsConfigured(Seeded(configs)[i], Named(configs)[i])
  {
    if configs != [] {
      var rest := configs[1..];
      SeededAreTheNamed(rest);
      ReadFromConfig(configs[0]);
      hide FromConfig, AsConfigured;
      if configs[0].name == "" {
        assert Seeded(configs) == Seeded(rest) && Named(configs) == Named(rest);
      } else {
        assert Seeded(configs) == [FromConfig(configs[0])] + Seeded(rest);
        assert Named(configs) == [configs[0]] + Named(rest);
      }
    }
  }

  /** The roster without the other entries of the announced leg. */
  function Kept(peers: seq<PeerEntry>, port: int, id: string): seq<PeerEntry> {
    if peers == [] then []
    else (if peers[0].port == port && peers[0].id != id then [] else [peers[0]]) + Kept(peers[1..], port, id)
  }

  /** The first entry with the property, or the length. */
  function First(peers: seq<PeerEntry>, p: PeerEntry -> bool): (k: nat)
    ensures k <= |peers| && (k < |peers| ==> p(peers[k])) && forall i :: 0 <= i < k ==> !p(peers[i])
  {
    if peers == [] || p(peers[0]) then 0 else 1 + First(peers[1..], p)
  }

  function Refreshed(e: PeerEntry, a: Announced, now: int): PeerEntry {
    e.(lastSeen := Some(now), online := true, team := if a.team != "" then a.team else e.team, status := a.status)
  }

  function Arrived(a: Announced, now: int): PeerEntry {
    PeerEntry(a.Id(), a.instance, a.name, a.team, "", a.status,
              if a.port >= 0 || a.instance != "" then a.port else 0, true, Some(now))
  }

  function SameInstance(a: Announced): PeerEntry -> bool {
    (e: PeerEntry) => e.id == a.Id() || e.instance == a.instance
  }

  function SameLeg(a: Announced): PeerEntry -> bool {
    (e: PeerEntry) => a.port >= 0 && e.port == a.port
  }

  function SameName(a: Announced): PeerEntry -> bool {
    (e: PeerEntry) => e.name == a.name && e.instance == ""
  }

  function ByInstance(e: PeerEntry, a: Announced, now: int): PeerEntry {
    Refreshed(e, a, now).(name := a.name, port := a.port, instance := a.instance, id := a.Id())
  }

  function ByLeg(e: PeerEntry, a: Announced, now: int): PeerEntry {
    Refreshed(e, a, now).(name := a.name, instance := "", id := a.Id())
  }

  function ByName(e: PeerEntry, a: Announced, now: int): PeerEntry {
    var r := Refreshed(e, a, now);
    if a.port >= 0 then r.(port := a.port, id := a.Id()) else r
  }

  /** `touch_peer` on the kept entries. */
  function Touch(kept: seq<PeerEntry>, a: Announced, now: int): seq<PeerEntry> {
    if a.instance != "" then
      var k := First(kept, SameInstance(a));
      if k < |kept| then kept[k := ByInstance(kept[k], a, now)] else kept + [Arrived(a, now)]
    else
      var leg := First(kept, SameLeg(a));
      if leg < |kept| then kept[leg := ByLeg(kept[leg], a, now)]
      else
        var named := First(kept, SameName(a));
        if named < |kept| then kept[named := ByName(kept[named], a, now)] else kept + [Arrived(a, now)]
  }

  function Touched(peers: seq<PeerEntry>, a: Announced, now: int): seq<PeerEntry> {
    if a.name == "" then peers else Touch(Kept(peers, a.port, a.Id()), a, now)
  }

  function Aged(e: PeerEntry, now: int, maxAge: int): PeerEntry {
    e.(online := e.online && e.lastSeen.Some? && now - e.lastSeen.value <= maxAge)
  }

  function AllAged(peers: seq<PeerEntry>, now: int, maxAge: int): seq<PeerEntry> {
    seq(|peers|, i requires 0 <= i < |peers| => Aged(peers[i], now, maxAge))
  }

  function AllOffline(peers: seq<PeerEntry>): seq<PeerEntry> {
    seq(|peers|, i requires 0 <= i < |peers| => peers[i].(online := false))
  }

  // ----- The class -----

  class Roster {
    var peers: seq<PeerEntry>

    constructor ()
      ensures peers == []
    {
      peers := [];
    }

    method SeedFromConfig(configs: seq<PeerConfig>)
      modifies this
      ensures peers == Seeded(configs) && |peers| == |Named(configs)|
      ensures forall i :: 0 <= i < |peers| ==> AsConfigured(peers[i], Named(configs)[i])
    {
      SeededAreTheNamed(configs);
      hide FromConfig;
      var entries: seq<PeerEntry> := [];
      for i := 0 to |configs|
        invariant entries + Seeded(configs[i..]) == Seeded(configs)
      {
        assert configs[i..][1..] == configs[i + 1..];
        if configs[i].name != "" {
          entries := entries + [FromConfig(configs[i])];
        }
      }
      peers := entries;
    }

    /** The erase loop: the index stays put when an entry goes. */
    method EraseOthersOnLeg(port: int, id: string)
      modifies this
      ensures peers == Kept(old(peers), port, id)
    {
      var i := 0;
      while i < |peers|
        invariant i <= |peers|
        invariant peers[..i] + Kept(peers[i..], port, id) == Kept(old(peers), port, id)
        decreases |peers| - i
      {
        assert peers[i..][1..] == peers[i + 1..];
        if peers[i].port == port && peers[i].id != id {
          var shorter := peers[..i] + peers[i + 1..];
          assert shorter[..i] == peers[..i] && shorter[i..] == peers[i + 1..];
          peers := shorter;
        } else {
          assert peers[..i + 1] == peers[..i] + [peers[i]];
          i := i + 1;
        }
      }
      assert peers[..i] == peers;
    }

    /** The search loop that each branch of `touch_peer` runs. */
    method FindFirst(p: PeerEntry -> bool) returns (k: nat)
      ensures k == First(peers, p)
    {
      k := 0;
      assert peers[0..] == peers;
      while k < |peers|
        invariant k <= |peers| && First(peers, p) == k + First(peers[k..], p)
      {
        if p(peers[k]) {
          return;
        }
        assert peers[k..][1..] == peers[k + 1..];
        k := k + 1;
      }
    }

    method TouchPeer(a: Announced, now: int)
      modifies this
      ensures peers == Touched(old(peers), a, now)
      ensures a.name == "" ==> peers == old(peers)
      ensures a.name != "" && a.Placed() && RosterInv(old(peers)) ==>
        RosterInv(peers) && exists k: nat :: OnlyLiveOnLeg(peers, k, a) && JustHeard(peers, k, a, now)
    {
      if a.name == "" {
        return;
      }
      if a.Placed() && RosterInv(peers) {
        var _ := TouchLeavesOneLive(peers, a, now);
      }
      hide RosterInv, OnlyLiveOnLeg, JustHeard;
      EraseOthersOnLeg(a.port, a.Id());
      if a.instance != "" {
        var k := FindFirst(SameInstance(a));
        if k < |peers| {
          peers := peers[k := ByInstance(peers[k], a, now)];
          return;
        }
        peers := peers + [Arrived(a, now)];
        return;
      }
      if a.port >= 0 {
        var k := FindFirst(SameLeg(a));
        if k < |peers| {
          peers := peers[k := ByLeg(peers[k], a, now)];
          return;
        }
      }
      var k := FindFirst(SameName(a));
      if k < |peers| {
        peers := peers[k := ByName(peers[k], a, now)];
        return;
      }
      peers := peers + [Arrived(a, now)];
    }

    method MarkStalePeersOffline(now: int, maxAge: int)
      modifies this
      ensures peers == AllAged(old(peers), now, maxAge)
      ensures forall i :: 0 <= i < |peers| ==>
        && peers[i] == old(peers)[i].(online := peers[i].online)
        && (peers[i].online <==>
              old(peers)[i].online && peers[i].lastSeen.Some? && now - peers[i].lastSeen.value <= maxAge)
    {
      for i := 0 to |peers|
        invariant |peers| == |old(peers)|
        invariant forall k :: 0 <= k < i ==> peers[k] == Aged(old(peers)[k], now, maxAge)
        invariant forall k :: i <= k < |peers| ==> peers[k] == old(peers)[k]
      {
        var e := peers[i];
        if !e.online || e.lastSeen.None? {
          peers := peers[i := e.(online := false)];
        } else if now - e.lastSeen.value > maxAge {
          peers := peers[i := e.(online := false)];
        }
      }
    }

    method SetAllPeersOffline()
      modifies this
      ensures peers == AllOffline(old(peers)) && |peers| == |old(peers)|
      ensures forall i :: 0 <= i < |peers| ==> !peers[i].online && peers[i] == old(peers)[i].(online := false)
    {
      for i := 0 to |peers|
        invariant |peers| == |old(peers)|
        invariant forall k :: 0 <= k < i ==> peers[k] == old(peers)[k].(online := false)
        invariant forall k :: i <= k < |peers| ==> peers[k] == old(peers)[k]
      {
        peers := peers[i := peers[i].(online := false)];
      }
    }
  }

  // ----- The invariant -----

  /** A live entry is the first of its leg. */
  predicate OneLivePerLeg(peers: seq<PeerEntry>) {
    forall i, j :: 0 <= i < j < |peers| && peers[i].port == peers[j].port ==> !peers[j].online
  }

  predicate IdFits(e: PeerEntry) {
    if e.instance != "" then e.id == "i:" + e.instance else e.id != [] && e.id[0] != 'i'
  }

  predicate UniqueInstances(peers: seq<PeerEntry>) {
    forall i, j :: 0 <= i < j < |peers| && peers[i].instance == peers[j].instance ==> peers[i].instance == ""
  }

  predicate RosterInv(peers: seq<PeerEntry>) {
    && OneLivePerLeg(peers)
    && UniqueInstances(peers)
    && forall i :: 0 <= i < |peers| ==> IdFits(peers[i])
  }

  /** Entry `k` is live on the leg, under the announced name and instance, and no other entry is live there. */
  predicate OnlyLiveOnLeg(peers: seq<PeerEntry>, k: nat, a: Announced) {
    && k < |peers| && peers[k].online && peers[k].port == a.port
    && peers[k].name == a.name && peers[k].instance == a.instance && peers[k].id == a.Id()
    && forall i :: 0 <= i < |peers| && i != k && peers[i].port == a.port ==> !peers[i].online
  }

  /** Entry `k` has just been heard from, with the announced status, and team if one is announced. */
  predicate JustHeard(peers: seq<PeerEntry>, k: nat, a: Announced, now: int) {
    && k < |peers| && peers[k].lastSeen == Some(now) && peers[k].status == a.status
    && (a.team != "" ==> peers[k].team == a.team)
  }

  lemma GeneratedIdFits(a: Announced)
    ensures if a.instance != "" then a.Id() == "i:" + a.instance else a.Id() != [] && a.Id()[0] != 'i'
  {
    PrintedIsPlain(a.port);
    assert Printed(a.port)[0] == '-' || '0' <= Printed(a.port)[0] <= '9';
  }

  lemma {:induction false} KeptAreOld(peers: seq<PeerEntry>, port: int, id: string)
    ensures forall e :: e in Kept(peers, port, id) <==> e in peers && (e.port != port || e.id == id)
  {
    if peers != [] {
      KeptAreOld(peers[1..], port, id);
      assert peers == [peers[0]] + peers[1..];
    }
  }

  lemma {:induction false} KeptKeepsInv(peers: seq<PeerEntry>, port: int, id: string)
    requires RosterInv(peers)
    ensures RosterInv(Kept(peers, port, id))
  {
    hide MakePeerId;
    if peers != [] {
      KeptKeepsInv(peers[1..], port, id);
      KeptAreOld(peers[1..], port, id);
      ConsKeepsInv(peers, Kept(peers[1..], port, id));
    }
  }

  /** The head in front of any part of the tail that keeps the invariant. */
  lemma ConsKeepsInv(peers: seq<PeerEntry>, part: seq<PeerEntry>)
    requires RosterInv(peers) && peers != [] && RosterInv(part)
    requires forall e :: e in part ==> e in peers[1..]
    ensures RosterInv([peers[0]] + part)
  {
    forall e | e in part ensures (e.port == peers[0].port ==> !e.online)
                              && (e.instance == peers[0].instance ==> e.instance == "") {
      var i :| 0 <= i < |peers[1..]| && peers[1..][i] == e;
      assert peers[i + 1] == e;
    }
  }

  /** Replacing one entry by a live one keeps the invariant when no other entry shares its leg or its instance. */
  lemma PlaceKeepsInv(peers: seq<PeerEntry>, k: nat, e: PeerEntry)
    requires RosterInv(peers) && k < |peers| && IdFits(e)
    requires forall i :: 0 <= i < |peers| && i != k ==>
      && (peers[i].port == e.port ==> k < i && peers[k].port == e.port)
      && (peers[i].instance == e.instance ==> e.instance == "")
    ensures RosterInv(peers[k := e])
  {
  }

  lemma AppendKeepsInv(peers: seq<PeerEntry>, e: PeerEntry)
    requires RosterInv(peers) && IdFits(e)
    requires forall i :: 0 <= i < |peers| ==>
      peers[i].port != e.port && (peers[i].instance == e.instance ==> e.instance == "")
    ensures RosterInv(peers + [e])
  {
  }

  /** Seeding keeps the invariant whatever the configuration lists, duplicates included: nobody is live yet. */
  lemma {:induction false} SeededInv(configs: seq<PeerConfig>)
    ensures RosterInv(Seeded(configs))
    ensures forall e :: e in Seeded(configs) ==> !e.online && e.instance == ""
  {
    if configs != [] {
      SeededInv(configs[1..]);
      var c := configs[0];
      GeneratedIdFits(Announced(c.name, c.team, c.status, c.port, ""));
    }
  }

  lemma LegOfKept(peers: seq<PeerEntry>, a: Announced)
    ensures forall i :: 0 <= i < |Kept(peers, a.port, a.Id())| && Kept(peers, a.port, a.Id())[i].port == a.port
              ==> Kept(peers, a.port, a.Id())[i].id == a.Id()
  {
    KeptAreOld(peers, a.port, a.Id());
    forall i | 0 <= i < |Kept(peers, a.port, a.Id())|
      ensures Kept(peers, a.port, a.Id())[i] in Kept(peers, a.port, a.Id()) {
    }
  }

  lemma IdTellsInstance(e: PeerEntry, a: Announced)
    requires IdFits(e) && a.instance != "" && e.id == a.Id()
    ensures e.instance == a.instance
  {
    assert a.Id()[0] == 'i' && a.Id()[2..] == a.instance;
    assert e.instance != "" && ("i:" + e.instance)[2..] == e.instance;
  }

  /** An announce with an instance: the entry of that instance, or a new one, is alone on the leg. */
  lemma TouchInstance(kept: seq<PeerEntry>, a: Announced, now: int) returns (k: nat)
    requires RosterInv(kept) && a.instance != ""
    requires forall i :: 0 <= i < |kept| && kept[i].port == a.port ==> kept[i].id == a.Id()
    ensures RosterInv(Touch(kept, a, now)) && OnlyLiveOnLeg(Touch(kept, a, now), k, a)
    ensures JustHeard(Touch(kept, a, now), k, a, now)
  {
    GeneratedIdFits(a);
    k := First(kept, SameInstance(a));
    forall i | 0 <= i < |kept| ensures kept[i].id == a.Id() ==> kept[i].instance == a.instance {
      assert IdFits(kept[i]);
      if kept[i].id == a.Id() {
        IdTellsInstance(kept[i], a);
      }
    }
    if k < |kept| {
      PlaceKeepsInv(kept, k, ByInstance(kept[k], a, now));
    } else {
      AppendKeepsInv(kept, Arrived(a, now));
    }
  }

  /** An announce without an instance, for a leg: the leg's entry, else the entry of that name, else a new one. */
  lemma TouchLeg(kept: seq<PeerEntry>, a: Announced, now: int) returns (k: nat)
    requires RosterInv(kept) && a.instance == "" && a.port >= 0
    ensures RosterInv(Touch(kept, a, now)) && OnlyLiveOnLeg(Touch(kept, a, now), k, a)
    ensures JustHeard(Touch(kept, a, now), k, a, now)
  {
    GeneratedIdFits(a);
    k := First(kept, SameLeg(a));
    if k < |kept| {
      PlaceKeepsInv(kept, k, ByLeg(kept[k], a, now));
    } else {
      k := First(kept, SameName(a));
      if k < |kept| {
        PlaceKeepsInv(kept, k, ByName(kept[k], a, now));
      } else {
        AppendKeepsInv(kept, Arrived(a, now));
      }
    }
  }

  /** After a named announce with a leg or an instance exactly one entry is live on that leg, it carries the
      announced name, instance, status and team and the time of the announce, and the roster invariant still holds. */
  lemma TouchLeavesOneLive(peers: seq<PeerEntry>, a: Announced, now: int) returns (k: nat)
    requires RosterInv(peers) && a.Placed() && a.name != ""
    ensures RosterInv(Touched(peers, a, now)) && OnlyLiveOnLeg(Touched(peers, a, now), k, a)
    ensures JustHeard(Touched(peers, a, now), k, a, now)
  {
    var kept := Kept(peers, a.port, a.Id());
    KeptKeepsInv(peers, a.port, a.Id());
    LegOfKept(peers, a);
    if a.instance != "" {
      k := TouchInstance(kept, a, now);
    } else {
      k := TouchLeg(kept, a, now);
    }
  }

  /** The entry just heard from stays online through stale marking if and only if no more than the maximum age has
      passed, and whatever its age until then. */
  lemma AnnouncedStaysOnlineIff(peers: seq<PeerEntry>, a: Announced, now: int, later: int, maxAge: int) returns (k: nat)
    requires RosterInv(peers) && a.Placed() && a.name != ""
    ensures OnlyLiveOnLeg(Touched(peers, a, now), k, a)
    ensures AllAged(Touched(peers, a, now), later, maxAge)[k].online <==> later - now <= maxAge
  {
    k := TouchLeavesOneLive(peers, a, now);
  }

  /** A touch changes nobody's role, and a team only to the one announced: the entries kept keep theirs in order, and
      one more may come behind them, without a role. */
  lemma RolesAndTeamsStay(peers: seq<PeerEntry>, a: Announced, now: int)
    requires a.name != ""
    ensures var kept, after := Kept(peers, a.port, a.Id()), Touched(peers, a, now);
      && |kept| <= |after| <= |kept| + 1
      && (forall i :: 0 <= i < |kept| ==> KeepsRole(kept[i], after[i], a))
      && (|after| > |kept| ==> after[|kept|].role == "" && after[|kept|].team == a.team)
  {
    var kept := Kept(peers, a.port, a.Id());
    assert Arrived(a, now).role == "" && Arrived(a, now).team == a.team;
    hide Kept, First, MakePeerId, ByInstance, ByLeg, ByName, Arrived;
    var k := First(kept, if a.instance != "" then SameInstance(a) else SameLeg(a));
    if k < |kept| {
      RefreshKeepsRole(kept[k], a, now);
    } else if a.instance == "" {
      var n := First(kept, SameName(a));
      if n < |kept| {
        RefreshKeepsRole(kept[n], a, now);
      }
    }
  }

  predicate RefreshedKeepsRole(e: PeerEntry, a: Announced, now: int) {
    KeepsRole(e, ByInstance(e, a, now), a) && KeepsRole(e, ByLeg(e, a, now), a) && KeepsRole(e, ByName(e, a, now), a)
  }

  lemma RefreshKeepsRole(e: PeerEntry, a: Announced, now: int)
    ensures RefreshedKeepsRole(e, a, now)
  {
    hide MakePeerId;
  }

  predicate KeepsRole(was: PeerEntry, now: PeerEntry, a: Announced) {
    now.role == was.role && (now.team == was.team || (a.team != "" && now.team == a.team))
  }

  /** An announce that names neither leg nor instance moves nobody. */
  lemma UnplacedMovesNobody(peers: seq<PeerEntry>, a: Announced, now: int)
    requires !a.Placed()
    ensures var kept, after := Kept(peers, a.port, a.Id()), Touched(peers, a, now);
      |kept| <= |after| && forall i :: 0 <= i < |kept| ==> after[i].port == kept[i].port && after[i].id == kept[i].id
  {
  }

  /** Two ids are equal exactly when they stand for the same instance, or for the same name on the same leg. */
  lemma IdsTellPeersApart(p: int, n: string, x: string, q: int, m: string, y: string)
    ensures MakePeerId(p, n, x) == MakePeerId(q, m, y) <==> x == y && (x == "" ==> p == q && n == m)
  {
    var a, b := MakePeerId(p, n, x), MakePeerId(q, m, y);
    PrintedIsPlain(p);
    PrintedIsPlain(q);
    assert Printed(p)[0] != 'i' && Printed(q)[0] != 'i';
    if x != "" || y != "" {
      assert x != "" ==> a[0] == 'i' && a[2..] == x;
      assert y != "" ==> b[0] == 'i' && b[2..] == y;
      assert x == "" ==> a[0] == Printed(p)[0];
      assert y == "" ==> b[0] == Printed(q)[0];
    } else if a == b {
      ColonsAlign(Printed(p), n, Printed(q), m);
    }
  }

  lemma ColonsAlign(a: string, n: string, b: string, m: string)
    requires a + ":" + n == b + ":" + m && ':' !in a && ':' !in b
    ensures a == b && n == m
  {
    var s := a + ":" + n;
    assert |a| == |b| by {
      assert s[|a|] == ':' && s[|b|] == ':';
      assert forall i :: 0 <= i < |a| ==> s[i] == a[i] && a[i] != ':';
      assert forall i :: 0 <= i < |b| ==> s[i] == b[i] && b[i] != ':';
    }
    assert s[..|a|] == a && s[..|b|] == b && s[|a| + 1..] == n && s[|b| + 1..] == m;
  }

  /** The entry that an announce may move to its leg. */
  predicate MayMove(e: PeerEntry, a: Announced) {
    if a.instance != "" then e.instance == a.instance else e.instance == "" && e.name == a.name
  }

  /** Other legs only lose the peer that moved: every entry away from the announced leg was there before, and every
      other entry of those legs is still there. */
  lemma OtherLegsKeepTheirEntries(peers: seq<PeerEntry>, a: Announced, now: int)
    requires RosterInv(peers) && a.Placed()
    ensures forall e :: e in Touched(peers, a, now) && e.port != a.port ==> e in peers
    ensures forall e :: e in peers && e.port != a.port && !MayMove(e, a) ==> e in Touched(peers, a, now)
  {
    if a.name != "" {
      forall e | e in peers && e.port != a.port && !MayMove(e, a) ensures e in Touched(peers, a, now) {
        OthersStay(peers, a, now, e);
      }
    }
    if a.name != "" {
      var kept := Kept(peers, a.port, a.Id());
      KeptAreOld(peers, a.port, a.Id());
      forall e | e in Touch(kept, a, now) && e.port != a.port ensures e in peers {
        assert e in kept;
      }
    }
  }

  lemma OthersStay(peers: seq<PeerEntry>, a: Announced, now: int, e: PeerEntry)
    requires RosterInv(peers) && a.Placed() && a.name != ""
    requires e in peers && e.port != a.port && !MayMove(e, a)
    ensures e in Touched(peers, a, now)
  {
    var kept := Kept(peers, a.port, a.Id());
    KeptAreOld(peers, a.port, a.Id());
    KeptKeepsInv(peers, a.port, a.Id());
    var i :| 0 <= i < |kept| && kept[i] == e;
    assert IdFits(e);
    if a.instance != "" && e.id == a.Id() {
      IdTellsInstance(e, a);
    }
    Replaced(kept, a, now, i);
  }

  /** Only the entry a search finds is replaced. */
  lemma Replaced(kept: seq<PeerEntry>, a: Announced, now: int, i: nat)
    requires i < |kept| && a.Placed()
    requires a.instance != "" ==> !SameInstance(a)(kept[i])
    requires a.instance == "" ==> !SameLeg(a)(kept[i]) && !SameName(a)(kept[i])
    ensures kept[i] in Touch(kept, a, now)
  {
    assert |Touch(kept, a, now)| > i && Touch(kept, a, now)[i] == kept[i];
  }

  lemma FirstAnnounce(a: Announced, now: int)
    requires a.port >= 0 && a.instance == "" && a.name != ""
    ensures Touched([], a, now) == [Arrived(a, now)] && RosterInv(Touched([], a, now))
  {
    GeneratedIdFits(a);
    assert Kept([], a.port, a.Id()) == [];
  }

  /** Without a leg and under a new name an entry is added, on leg 0. */
  lemma UnplacedAdds(e: PeerEntry, a: Announced, now: int)
    requires !a.Placed() && e.port != a.port && e.name != a.name
    ensures Touched([e], a, now) == [e] + [Arrived(a, now)]
  {
    var kept := Kept([e], a.port, a.Id());
    assert [e][1..] == [] && kept == [e] + Kept([], a.port, a.Id());
  }

  /** Two live peers on leg 0: one by its own announce, one by an announce of another name without a leg. */
  lemma UnplacedTouchBreaksIt(a: Announced, now: int) returns (peers: seq<PeerEntry>)
    requires !a.Placed()
    ensures RosterInv(peers) && !RosterInv(Touched(peers, a, now))
  {
    hide Touched, MakePeerId;
    var stranger := Announced(a.name + "'", "", AskFirst, 0, "");
    assert |stranger.name| != |a.name|;
    peers := Touched([], stranger, now);
    FirstAnnounce(stranger, now);
    UnplacedAdds(Arrived(stranger, now), a, now);
    var after := [Arrived(stranger, now)] + [Arrived(a, now)];
    assert after[0].port == after[1].port && after[1].online;
  }

  /** An announce is harmless on every roster exactly when it names a leg, an instance, or nobody. */
  lemma TouchIsSafeIffPlaced(a: Announced, now: int)
    ensures a.Placed() <==> forall peers: seq<PeerEntry> :: RosterInv(peers) ==> RosterInv(Touched(peers, a, now))
  {
    if a.Placed() {
      forall peers: seq<PeerEntry> | RosterInv(peers) ensures RosterInv(Touched(peers, a, now)) {
        if a.name != "" {
          var _ := TouchLeavesOneLive(peers, a, now);
        }
      }
    } else {
      var peers := UnplacedTouchBreaksIt(a, now);
    }
  }

  // ----- Every run -----

  datatype Op =
    | Seed(configs: seq<PeerConfig>)
    | Heard(a: Announced, now: int)
    | Stale(now: int, maxAge: int)
    | Disconnect

  function Apply(peers: seq<PeerEntry>, op: Op): seq<PeerEntry> {
    match op
    case Seed(configs) => Seeded(configs)
    case Heard(a, now) => Touched(peers, a, now)
    case Stale(now, maxAge) => AllAged(peers, now, maxAge)
    case Disconnect => AllOffline(peers)
  }

  function ApplyAll(peers: seq<PeerEntry>, ops: seq<Op>): seq<PeerEntry>
    decreases |ops|
  {
    if ops == [] then peers else ApplyAll(Apply(peers, ops[0]), ops[1..])
  }

  lemma ApplyKeepsInv(peers: seq<PeerEntry>, op: Op)
    requires RosterInv(peers) && (op.Heard? ==> op.a.Placed())
    ensures RosterInv(Apply(peers, op))
  {
    match op
    case Seed(configs) => SeededInv(configs);
    case Heard(a, now) =>
      if a.name != "" {
        var _ := TouchLeavesOneLive(peers, a, now);
      }
    case Stale(now, maxAge) => QuieterKeepsInv(peers, AllAged(peers, now, maxAge));
    case Disconnect => QuieterKeepsInv(peers, AllOffline(peers));
  }

  /** Switching entries off keeps the invariant. */
  lemma QuieterKeepsInv(peers: seq<PeerEntry>, after: seq<PeerEntry>)
    requires RosterInv(peers) && |after| == |peers|
    requires forall i :: 0 <= i < |peers| ==> after[i] == peers[i] || after[i] == peers[i].(online := false)
    ensures RosterInv(after)
  {
  }

  lemma {:induction false} RunKeepsInv(peers: seq<PeerEntry>, ops: seq<Op>)
    requires RosterInv(peers) && forall i :: 0 <= i < |ops| && ops[i].Heard? ==> ops[i].a.Placed()
    ensures RosterInv(ApplyAll(peers, ops))
    decreases |ops|
  {
    if ops != [] {
      ApplyKeepsInv(peers, ops[0]);
      RunKeepsInv(Apply(peers, ops[0]), ops[1..]);
    }
  }

  /** In every run from an empty roster, no two entries of one leg are live at once, and no two entries
      share an instance. */
  lemma NoLegHasTwoLivePeers(ops: seq<Op>, i: nat, j: nat)
    requires forall n :: 0 <= n < |ops| && ops[n].Heard? ==> ops[n].a.Placed()
    ensures var peers := ApplyAll([], ops);
      i < j < |peers| ==>
        !(peers[i].port == peers[j].port && peers[i].online && peers[j].online)
        && (peers[i].instance == peers[j].instance ==> peers[i].instance == "")
  {
    RunKeepsInv([], ops);
  }
}
