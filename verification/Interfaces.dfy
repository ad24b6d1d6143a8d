/**
 Which HID interface stands for a device: collapsing the interfaces of one physical device, showing
 one row per vendor and product id, and the interface the transport opens.
 */
module Interfaces {
  import opened Bytes

  // ---- Strings, as Go orders them

  predicate Less(s: string, t: string) {
    t != [] && (s == [] || s[0] < t[0] || (s[0] == t[0] && Less(s[1..], t[1..])))
  }

  lemma {:induction false} LessIsOrder(s: string, t: string)
    ensures !(Less(s, t) && Less(t, s)) && (Less(s, t) || Less(t, s) <==> s != t)
  {
    if s != [] && t != [] && s[0] == t[0] {
      LessIsOrder(s[1..], t[1..]);
      assert s == [s[0]] + s[1..] && t == [t[0]] + t[1..];
    }
  }

  lemma {:induction false} LessChains(s: string, t: string, u: string)
    requires Less(s, t) && Less(t, u)
    ensures Less(s, u)
  {
    if s != [] && s[0] == t[0] == u[0] {
      LessChains(s[1..], t[1..], u[1..]);
    }
  }

  /** What Go's unicode.IsSpace takes for white space. */
  predicate Blank(c: char) {
    || c in " \t\n\r"
    || c as int in [0x0b, 0x0c, 0x85, 0xa0, 0x1680, 0x2028, 0x2029, 0x202f, 0x205f, 0x3000]
    || 0x2000 <= c as int <= 0x200a
  }

  /** White space by code point, the ASCII controls from tab to carriage return among it. */
  lemma BlankCodes(c: char)
    ensures Blank(c) <==>
            var u := c as int;
            || 0x09 <= u <= 0x0d || u == 0x20 || u == 0x85 || u == 0xa0 || u == 0x1680 || 0x2000 <= u <= 0x200a
            || u == 0x2028 || u == 0x2029 || u == 0x202f || u == 0x205f || u == 0x3000
  {
  }

  function TrimLeft(s: string): string { if s != [] && Blank(s[0]) then TrimLeft(s[1..]) else s }

  function TrimRight(s: string): string {
    if s != [] && Blank(s[|s| - 1]) then TrimRight(s[..|s| - 1]) else s
  }

  function Trim(s: string): string { TrimRight(TrimLeft(s)) }

  /** Nothing but blanks goes, and no blank is left at either end. */
  lemma TrimMeans(s: string) returns (a: string, b: string)
    ensures s == a + Trim(s) + b && (forall c :: c in a + b ==> Blank(c))
    ensures Trim(s) != "" ==> !Blank(Trim(s)[0]) && !Blank(Trim(s)[|Trim(s)| - 1])
  {
    a := LeftMeans(s);
    b := RightMeans(TrimLeft(s));
    var left, t := TrimLeft(s), Trim(s);
    assert s == a + (t + b) == a + t + b;
    if t != "" { assert left[0] == t[0]; }
  }

  lemma {:induction false} LeftMeans(s: string) returns (a: string)
    ensures s == a + TrimLeft(s) && forall c :: c in a ==> Blank(c)
    ensures TrimLeft(s) != "" ==> !Blank(TrimLeft(s)[0])
  {
    hide Blank;
    a := "";
    if s != [] && Blank(s[0]) {
      a := LeftMeans(s[1..]);
      a := [s[0]] + a;
    }
  }

  lemma {:induction false} RightMeans(s: string) returns (b: string)
    ensures s == TrimRight(s) + b && forall c :: c in b ==> Blank(c)
    ensures TrimRight(s) != "" ==> !Blank(TrimRight(s)[|TrimRight(s)| - 1])
  {
    hide Blank;
    b := "";
    if s != [] && Blank(s[|s| - 1]) {
      b := RightMeans(s[..|s| - 1]);
      b := b + [s[|s| - 1]];
    }
  }

  // ---- Enumerated interfaces

  datatype Id = Id(vid: U16, pid: U16)

  datatype Device = Device(id: Id, product: string, manufacturer: string, serial: string, path: string,
                           page: U16, usage: U16, iface: int)

  /** Which usage a product's configuration interface has: some have their own, the rest share one. */
  datatype Config = Config(own: map<U16, (U16, U16)>, shared: (U16, U16))
  {
    function UsageFor(id: Id): (U16, U16) { if id.pid in own then own[id.pid] else shared }
    predicate IsVendor(d: Device) { (d.page, d.usage) == UsageFor(d.id) }
  }

  /** The products there are: the Retro keyboards, those on the shared page and the Retro mouse. */
  const CONFIG := Config(
    map[
      0x5209 := (0x008c, 1), 0x5200 := (0x008c, 1), 0x5201 := (0x008c, 1), 0x520a := (0x008c, 1), 0x520b := (0x008c, 1), 0x520c := (0x008c, 1),
      0x310b := (0xff7a, 1), 0x310a := (0xff7a, 1), 0x2062 := (0xff7a, 1), 0x20aa := (0xff7a, 1), 0x2084 := (0xff7a, 1), 0x3004 := (0xff7a, 1),
      0x5205 := (0xff00, 1), 0x5206 := (0xff00, 1)],
    (0xffa0, 1))

  /** A Retro 108 keyboard's, an Ultimate 2C's, a Retro mouse's and an Ultimate 2's configuration interface. */
  lemma KnownInterfaces(d: Device)
    ensures d.id.pid == 0x5209 ==> (CONFIG.IsVendor(d) <==> d.page == 0x8c && d.usage == 1)
    ensures d.id.pid == 0x310a ==> (CONFIG.IsVendor(d) <==> d.page == 0xff7a && d.usage == 1)
    ensures d.id.pid == 0x5205 ==> (CONFIG.IsVendor(d) <==> d.page == 0xff00 && d.usage == 1)
    ensures d.id.pid == 0x6012 ==> (CONFIG.IsVendor(d) <==> d.page == 0xffa0 && d.usage == 1)
  {
  }

  /** What tells one physical device's interfaces from another's. */
  datatype Key = BySerial(id: Id, serial: string) | ByPath(id: Id, path: string)

  function KeyOf(d: Device): (key: Option<Key>) {
    if Trim(d.serial) != "" then Some(BySerial(d.id, Trim(d.serial)))
    else if Trim(d.path) != "" then Some(ByPath(d.id, Trim(d.path)))
    else None
  }

  /** Two interfaces that are merged: they have the same key. One with no key is merged with nothing. */
  predicate SamePhysical(d: Device, e: Device) { KeyOf(d).Some? && KeyOf(d) == KeyOf(e) }

  /**
   Interfaces are merged when one id has one serial, blanks at its ends aside, or, without any serial,
   one path. One with neither is merged with nothing, not even its like.
   */
  lemma SamePhysicalMeans(d: Device, e: Device)
    ensures SamePhysical(d, e) <==>
            d.id == e.id &&
            (if Trim(d.serial) != "" || Trim(e.serial) != "" then Trim(d.serial) == Trim(e.serial)
             else Trim(d.path) != "" && Trim(d.path) == Trim(e.path))
  {
    hide Trim;
  }

  /** The order in which interfaces are preferred: the vendor interface before any other. */
  predicate Prefer(c: Config, d: Device, e: Device) {
    if c.IsVendor(d) != c.IsVendor(e) then c.IsVendor(d)
    else if d.serial != e.serial then Less(d.serial, e.serial)
    else if d.path != e.path then Less(d.path, e.path)
    else if d.page != e.page then d.page < e.page
    else if d.usage != e.usage then d.usage < e.usage
    else d.iface < e.iface
  }

  /** Interfaces the order does not tell apart. */
  predicate Tied(d: Device, e: Device) {
    d.id == e.id && d.serial == e.serial && d.path == e.path && d.page == e.page && d.usage == e.usage && d.iface == e.iface
  }

  lemma PreferChains(c: Config, d: Device, e: Device, f: Device)
    requires !Prefer(c, e, d) && !Prefer(c, f, e)
    ensures !Prefer(c, f, d)
  {
    LessIsOrder(d.serial, e.serial);
    LessIsOrder(e.serial, f.serial);
    LessIsOrder(d.serial, f.serial);
    LessIsOrder(d.path, e.path);
    LessIsOrder(e.path, f.path);
    LessIsOrder(d.path, f.path);
    if Less(d.serial, e.serial) && Less(e.serial, f.serial) { LessChains(d.serial, e.serial, f.serial); }
    if Less(d.path, e.path) && Less(e.path, f.path) { LessChains(d.path, e.path, f.path); }
  }

  lemma PreferOrTied(c: Config, d: Device, e: Device)
    requires d.id == e.id && !Prefer(c, d, e) && !Prefer(c, e, d)
    ensures Tied(d, e)
  {
    LessIsOrder(d.serial, e.serial);
    LessIsOrder(d.path, e.path);
  }

  lemma PreferNotBoth(c: Config, d: Device, e: Device)
    requires Prefer(c, d, e)
    ensures !Prefer(c, e, d)
  {
    LessIsOrder(d.serial, e.serial);
    LessIsOrder(d.path, e.path);
  }

  // ---- Collapsing one physical device's interfaces

  /** No interface of the same physical device is preferred to this one. */
  ghost predicate BestOfPhysical(c: Config, devices: seq<Device>, n: nat, d: Device)
    requires n <= |devices|
  {
    forall i :: 0 <= i < n && SamePhysical(devices[i], d) ==> !Prefer(c, devices[i], d)
  }

  /** One interface per key among the first n, with where it was enumerated. */
  ghost predicate ByKeyOk(c: Config, devices: seq<Device>, n: nat, byKey: map<Key, nat>)
    requires n <= |devices|
  {
    && (forall k :: k in byKey ==> byKey[k] < n && KeyOf(devices[byKey[k]]) == Some(k) && BestOfPhysical(c, devices, n, devices[byKey[k]]))
    && (forall i :: 0 <= i < n && KeyOf(devices[i]).Some? ==> KeyOf(devices[i]).value in byKey)
  }

  /** The first n interfaces that have no key, in order. */
  function Unkeyed(devices: seq<Device>, n: nat): (u: seq<nat>)
    requires n <= |devices|
  {
    if n == 0 then [] else Unkeyed(devices, n - 1) + if KeyOf(devices[n - 1]).None? then [n - 1] else []
  }

  /** They are those without a key, each once. */
  lemma {:induction false} UnkeyedAre(devices: seq<Device>, n: nat)
    requires n <= |devices|
    ensures forall k :: 0 <= k < |Unkeyed(devices, n)| ==> Unkeyed(devices, n)[k] < n && KeyOf(devices[Unkeyed(devices, n)[k]]).None?
    ensures forall j, k :: 0 <= j < k < |Unkeyed(devices, n)| ==> Unkeyed(devices, n)[j] < Unkeyed(devices, n)[k]
    ensures forall i :: 0 <= i < n && KeyOf(devices[i]).None? ==> i in Unkeyed(devices, n)
  {
    hide KeyOf;
    if n > 0 {
      UnkeyedAre(devices, n - 1);
      if KeyOf(devices[n - 1]).None? {
        assert Unkeyed(devices, n)[|Unkeyed(devices, n)| - 1] == n - 1;
      }
    }
  }

  /** Where each physical device's representative was enumerated. */
  ghost predicate Representatives(c: Config, devices: seq<Device>, reps: seq<nat>) {
    && (forall k :: 0 <= k < |reps| ==> reps[k] < |devices| && BestOfPhysical(c, devices, |devices|, devices[reps[k]]))
    && (forall j, k :: 0 <= j < k < |reps| ==> reps[j] != reps[k] && !SamePhysical(devices[reps[j]], devices[reps[k]]))
    && (forall i :: 0 <= i < |devices| ==> Represented(devices, reps, i))
  }

  /** An interface is a representative, or is merged with one. */
  ghost predicate Represented(devices: seq<Device>, reps: seq<nat>, i: nat)
    requires i < |devices|
  {
    exists k :: 0 <= k < |reps| && reps[k] < |devices| && (reps[k] == i || SamePhysical(devices[i], devices[reps[k]]))
  }

  /** One representative per physical device; an interface with no key stands for itself. */
  method Deduplicate(c: Config, devices: seq<Device>) returns (reps: seq<nat>)
    ensures Representatives(c, devices, reps)
  {
    var byKey: map<Key, nat> := map[];
    for i := 0 to |devices|
      invariant ByKeyOk(c, devices, i, byKey)
    {
      var key := KeyOf(devices[i]);
      if key.None? {
        KeepOthers(c, devices, i, byKey);
        continue;
      }
      if key.value !in byKey || Prefer(c, devices[i], devices[byKey[key.value]]) {
        TakeNew(c, devices, i, byKey, key.value);
        byKey := byKey[key.value := i];
      } else {
        KeepOthers(c, devices, i, byKey);
      }
    }
    reps := [];
    var left := byKey.Keys;
    while left != {}
      invariant left <= byKey.Keys
      invariant forall j :: 0 <= j < |reps| ==> IsFor(byKey, devices, reps[j]) && KeyOf(devices[reps[j]]).value !in left
      invariant forall j, k :: 0 <= j < k < |reps| ==> reps[j] != reps[k]
      invariant forall k :: k in byKey && k !in left ==> byKey[k] in reps
      decreases left
    {
      var k :| k in left;
      reps := reps + [byKey[k]];
      left := left - {k};
    }
    var unkeyed := CollectUnkeyed(devices);
    JoinReps(c, devices, byKey, reps, unkeyed);
    reps := reps + unkeyed;
  }

  method CollectUnkeyed(devices: seq<Device>) returns (u: seq<nat>)
    ensures u == Unkeyed(devices, |devices|)
  {
    u := [];
    for i := 0 to |devices|
      invariant u == Unkeyed(devices, i)
    {
      if KeyOf(devices[i]).None? {
        u := u + [i];
      }
    }
  }

  ghost predicate IsFor(byKey: map<Key, nat>, devices: seq<Device>, i: nat) {
    i < |devices| && KeyOf(devices[i]).Some? && KeyOf(devices[i]).value in byKey && byKey[KeyOf(devices[i]).value] == i
  }

  lemma KeepOthers(c: Config, devices: seq<Device>, n: nat, byKey: map<Key, nat>)
    requires n < |devices| && ByKeyOk(c, devices, n, byKey)
    requires KeyOf(devices[n]).Some? ==>
               KeyOf(devices[n]).value in byKey && !Prefer(c, devices[n], devices[byKey[KeyOf(devices[n]).value]])
    ensures ByKeyOk(c, devices, n + 1, byKey)
  {
    hide Prefer, KeyOf;
  }

  lemma TakeNew(c: Config, devices: seq<Device>, n: nat, byKey: map<Key, nat>, key: Key)
    requires n < |devices| && ByKeyOk(c, devices, n, byKey) && KeyOf(devices[n]) == Some(key)
    requires key in byKey ==> Prefer(c, devices[n], devices[byKey[key]])
    ensures ByKeyOk(c, devices, n + 1, byKey[key := n])
  {
    var d := devices[n];
    forall i | 0 <= i < n + 1 && SamePhysical(devices[i], d)
      ensures !Prefer(c, devices[i], d)
    {
      if i < n {
        var was := devices[byKey[key]];
        PreferNotBoth(c, d, was);
        assert SamePhysical(devices[i], was);
        PreferChains(c, d, was, devices[i]);
      } else {
        LessIsOrder(d.serial, d.serial);
      }
    }
    hide Prefer, KeyOf;
  }

  lemma JoinReps(c: Config, devices: seq<Device>, byKey: map<Key, nat>, keyed: seq<nat>, unkeyed: seq<nat>)
    requires ByKeyOk(c, devices, |devices|, byKey) && unkeyed == Unkeyed(devices, |devices|)
    requires forall j :: 0 <= j < |keyed| ==> IsFor(byKey, devices, keyed[j])
    requires forall j, k :: 0 <= j < k < |keyed| ==> keyed[j] != keyed[k]
    requires forall k :: k in byKey ==> byKey[k] in keyed
    ensures Representatives(c, devices, keyed + unkeyed)
  {
    hide Prefer, KeyOf, Unkeyed, BestOfPhysical, SamePhysical, Represented, ByKeyOk, IsFor;
    var reps := keyed + unkeyed;
    forall k | 0 <= k < |reps|
      ensures reps[k] < |devices| && BestOfPhysical(c, devices, |devices|, devices[reps[k]])
    {
      RepBest(c, byKey, devices, keyed, unkeyed, k);
    }
    forall j, k | 0 <= j < k < |reps|
      ensures reps[j] != reps[k] && !SamePhysical(devices[reps[j]], devices[reps[k]])
    {
      RepsDiffer(byKey, devices, keyed, unkeyed, j, k);
    }
    forall i | 0 <= i < |devices|
      ensures Represented(devices, reps, i)
    {
      HasRep(c, byKey, devices, keyed, unkeyed, i);
    }
  }

  lemma RepBest(c: Config, byKey: map<Key, nat>, devices: seq<Device>, keyed: seq<nat>, unkeyed: seq<nat>, k: nat)
    requires ByKeyOk(c, devices, |devices|, byKey) && unkeyed == Unkeyed(devices, |devices|) && k < |keyed + unkeyed|
    requires forall j :: 0 <= j < |keyed| ==> IsFor(byKey, devices, keyed[j])
    ensures (keyed + unkeyed)[k] < |devices| && BestOfPhysical(c, devices, |devices|, devices[(keyed + unkeyed)[k]])
  {
    UnkeyedAre(devices, |devices|);
    hide KeyOf, Unkeyed, BestOfPhysical;
    if k < |keyed| {
      assert IsFor(byKey, devices, keyed[k]);
    } else {
      assert (keyed + unkeyed)[k] == unkeyed[k - |keyed|];
      UnkeyedBest(c, devices, unkeyed[k - |keyed|]);
    }
  }

  lemma UnkeyedBest(c: Config, devices: seq<Device>, i: nat)
    requires i < |devices| && KeyOf(devices[i]).None?
    ensures BestOfPhysical(c, devices, |devices|, devices[i])
  {
  }

  lemma RepsDiffer(byKey: map<Key, nat>, devices: seq<Device>, keyed: seq<nat>, unkeyed: seq<nat>, j: nat, k: nat)
    requires unkeyed == Unkeyed(devices, |devices|) && j < k < |keyed + unkeyed|
    requires forall j :: 0 <= j < |keyed| ==> IsFor(byKey, devices, keyed[j])
    requires forall j, k :: 0 <= j < k < |keyed| ==> keyed[j] != keyed[k]
    ensures (keyed + unkeyed)[j] < |devices| && (keyed + unkeyed)[k] < |devices| && (keyed + unkeyed)[j] != (keyed + unkeyed)[k]
    ensures !SamePhysical(devices[(keyed + unkeyed)[j]], devices[(keyed + unkeyed)[k]])
  {
    UnkeyedAre(devices, |devices|);
    hide KeyOf, Unkeyed;
    if k < |keyed| {
      assert IsFor(byKey, devices, keyed[j]) && IsFor(byKey, devices, keyed[k]) && keyed[j] != keyed[k];
    } else if j < |keyed| {
      assert IsFor(byKey, devices, keyed[j]) && KeyOf(devices[unkeyed[k - |keyed|]]).None?;
    } else {
      assert unkeyed[j - |keyed|] < unkeyed[k - |keyed|];
    }
  }

  lemma HasRep(c: Config, byKey: map<Key, nat>, devices: seq<Device>, keyed: seq<nat>, unkeyed: seq<nat>, i: nat)
    requires ByKeyOk(c, devices, |devices|, byKey) && unkeyed == Unkeyed(devices, |devices|) && i < |devices|
    requires forall k :: k in byKey ==> byKey[k] in keyed
    ensures Represented(devices, keyed + unkeyed, i)
  {
    UnkeyedAre(devices, |devices|);
    hide Prefer, KeyOf, Unkeyed;
    var reps := keyed + unkeyed;
    if KeyOf(devices[i]).Some? {
      var at := byKey[KeyOf(devices[i]).value];
      var k :| 0 <= k < |keyed| && keyed[k] == at;
      assert reps[k] == at && SamePhysical(devices[i], devices[reps[k]]);
    } else {
      var k :| 0 <= k < |unkeyed| && unkeyed[k] == i;
      assert reps[|keyed| + k] == i;
    }
  }

  // ---- One row per vendor and product id

  /** No interface of the same id is preferred to this one. */
  ghost predicate BestOfId(c: Config, devices: seq<Device>, d: Device) {
    d in devices && forall i :: 0 <= i < |devices| && devices[i].id == d.id ==> !Prefer(c, devices[i], d)
  }

  /** More than one physical device has an id. */
  ghost predicate Several(devices: seq<Device>, id: Id) {
    exists i, j :: 0 <= i < j < |devices| && devices[i].id == id && devices[j].id == id && !SamePhysical(devices[i], devices[j])
  }

  /** A row shows its representative's serial and path only when nothing else could have been meant. */
  function Row(d: Device, several: bool): Device {
    if several then d.(serial := "", path := "") else d
  }

  /** A row is its representative, but for an identity that could be another's. */
  predicate StandsFor(row: Device, d: Device, several: bool) {
    && row.id == d.id && row.product == d.product && row.manufacturer == d.manufacturer
    && row.page == d.page && row.usage == d.usage && row.iface == d.iface
    && (if several then row.serial == "" && row.path == "" else row.serial == d.serial && row.path == d.path)
  }

  predicate Before(a: Id, b: Id) { a.vid < b.vid || (a.vid == b.vid && a.pid < b.pid) }

  ghost predicate IsRow(c: Config, devices: seq<Device>, row: Device) {
    exists d :: BestOfId(c, devices, d) && StandsFor(row, d, Several(devices, d.id))
  }

  ghost predicate RowsOk(c: Config, devices: seq<Device>, rows: seq<Device>) {
    && (forall k :: 0 <= k < |rows| ==> IsRow(c, devices, rows[k]))
    && (forall j, k :: 0 <= j < k < |rows| ==> Before(rows[j].id, rows[k].id))
    && (forall i :: 0 <= i < |devices| ==> HasRow(rows, devices[i].id))
  }

  // What is known of the first n physical devices: the best of each id, and how many it has.

  ghost predicate BestsOk(c: Config, phys: seq<Device>, n: nat, byId: map<Id, Device>)
    requires n <= |phys|
  {
    && (forall id :: id in byId ==> byId[id].id == id && byId[id] in phys[..n] && BestAmong(c, phys, n, byId[id]))
    && (forall k :: 0 <= k < n ==> phys[k].id in byId)
  }

  ghost predicate BestAmong(c: Config, phys: seq<Device>, n: nat, d: Device)
    requires n <= |phys|
  {
    forall k :: 0 <= k < n && phys[k].id == d.id ==> !Prefer(c, phys[k], d)
  }

  function Count(phys: seq<Device>, n: nat, id: Id): (count: nat)
    requires n <= |phys|
  {
    if n == 0 then 0 else Count(phys, n - 1, id) + if phys[n - 1].id == id then 1 else 0
  }

  ghost predicate TwoOf(phys: seq<Device>, n: nat, id: Id)
    requires n <= |phys|
  {
    exists j, k :: 0 <= j < k < n && phys[j].id == id && phys[k].id == id
  }

  ghost predicate OneOf(phys: seq<Device>, n: nat, id: Id)
    requires n <= |phys|
  {
    exists k :: 0 <= k < n && phys[k].id == id
  }

  lemma {:induction false} CountMeans(phys: seq<Device>, n: nat, id: Id)
    requires n <= |phys|
    ensures Count(phys, n, id) > 1 <==> TwoOf(phys, n, id)
    ensures Count(phys, n, id) > 0 <==> OneOf(phys, n, id)
  {
    if n > 0 {
      CountMeans(phys, n - 1, id);
    }
  }

  lemma BestsNext(c: Config, phys: seq<Device>, n: nat, byId: map<Id, Device>)
    requires n < |phys| && BestsOk(c, phys, n, byId)
    ensures if phys[n].id !in byId || Prefer(c, phys[n], byId[phys[n].id]) then BestsOk(c, phys, n + 1, byId[phys[n].id := phys[n]])
            else BestsOk(c, phys, n + 1, byId)
  {
    var d := phys[n];
    if d.id in byId {
      BestChains(c, phys, n, d, byId[d.id]);
    }
    LessIsOrder(d.serial, d.serial);
    assert !Prefer(c, d, d) && phys[..n + 1] == phys[..n] + [d];
    hide Prefer;
  }

  lemma BestChains(c: Config, phys: seq<Device>, n: nat, d: Device, was: Device)
    requires n <= |phys| && d.id == was.id && BestAmong(c, phys, n, was)
    ensures Prefer(c, d, was) ==> BestAmong(c, phys, n, d)
  {
    if Prefer(c, d, was) {
      PreferNotBoth(c, d, was);
      forall k | 0 <= k < n && phys[k].id == d.id
        ensures !Prefer(c, phys[k], d)
      {
        PreferChains(c, d, was, phys[k]);
      }
    }
  }

  function Physical(devices: seq<Device>, reps: seq<nat>): (phys: seq<Device>)
    requires forall k :: 0 <= k < |reps| ==> reps[k] < |devices|
    ensures |phys| == |reps| && forall k :: 0 <= k < |reps| ==> phys[k] == devices[reps[k]]
  {
    seq(|reps|, k requires 0 <= k < |reps| => devices[reps[k]])
  }

  /** The best physical device of an id is the best interface of that id. */
  lemma BestRepIsBest(c: Config, devices: seq<Device>, reps: seq<nat>, d: Device)
    requires Representatives(c, devices, reps) && d in devices && BestAmong(c, Physical(devices, reps), |reps|, d)
    ensures BestOfId(c, devices, d)
  {
    forall i | 0 <= i < |devices| && devices[i].id == d.id
      ensures !Prefer(c, devices[i], d)
    {
      assert Represented(devices, reps, i);
      var k :| 0 <= k < |reps| && reps[k] < |devices| && (reps[k] == i || SamePhysical(devices[i], devices[reps[k]]));
      var r := Physical(devices, reps)[k];
      assert r == devices[reps[k]];
      LessIsOrder(r.serial, r.serial);
      assert !Prefer(c, devices[i], r);
      SameId(devices[i], r);
      PreferChains(c, d, r, devices[i]);
    }
  }

  /** Several physical devices of an id are listed exactly when several were enumerated. */
  lemma TwoAreSeveral(c: Config, devices: seq<Device>, reps: seq<nat>, id: Id)
    requires Representatives(c, devices, reps)
    ensures TwoOf(Physical(devices, reps), |reps|, id) <==> Several(devices, id)
  {
    if TwoOf(Physical(devices, reps), |reps|, id) {
      TwoMeanSeveral(c, devices, reps, id);
    }
    if Several(devices, id) {
      SeveralMeanTwo(c, devices, reps, id);
    }
  }

  lemma TwoMeanSeveral(c: Config, devices: seq<Device>, reps: seq<nat>, id: Id)
    requires Representatives(c, devices, reps) && TwoOf(Physical(devices, reps), |reps|, id)
    ensures Several(devices, id)
  {
    hide Prefer, KeyOf, BestOfPhysical, Represented;
    var phys := Physical(devices, reps);
    var j, k :| 0 <= j < k < |reps| && phys[j].id == id && phys[k].id == id;
    var a, b := reps[j], reps[k];
    assert a != b && !SamePhysical(devices[a], devices[b]);
    if a < b {
    } else {
      assert !SamePhysical(devices[b], devices[a]);
    }
  }

  lemma SeveralMeanTwo(c: Config, devices: seq<Device>, reps: seq<nat>, id: Id)
    requires Representatives(c, devices, reps) && Several(devices, id)
    ensures TwoOf(Physical(devices, reps), |reps|, id)
  {
    hide Prefer, KeyOf, BestOfPhysical;
    var phys := Physical(devices, reps);
    var i, j :| 0 <= i < j < |devices| && devices[i].id == id && devices[j].id == id && !SamePhysical(devices[i], devices[j]);
    assert Represented(devices, reps, i) && Represented(devices, reps, j);
    var a :| 0 <= a < |reps| && reps[a] < |devices| && (reps[a] == i || SamePhysical(devices[i], devices[reps[a]]));
    var b :| 0 <= b < |reps| && reps[b] < |devices| && (reps[b] == j || SamePhysical(devices[j], devices[reps[b]]));
    SameId(devices[i], phys[a]);
    SameId(devices[j], phys[b]);
    assert a != b;
    if a < b {
      assert phys[a].id == id && phys[b].id == id;
    } else {
      assert phys[b].id == id && phys[a].id == id;
    }
  }

  lemma SameId(d: Device, e: Device)
    ensures SamePhysical(d, e) ==> d.id == e.id
  {
  }

  ghost predicate InOrder(rows: seq<Device>) {
    forall j, k :: 0 <= j < k < |rows| ==> Before(rows[j].id, rows[k].id)
  }

  /** Puts a row in its place among rows in order. */
  method InsertRow(rows: seq<Device>, row: Device) returns (r: seq<Device>)
    requires InOrder(rows) && forall j :: 0 <= j < |rows| ==> rows[j].id != row.id
    ensures InOrder(r) && row in r
    ensures forall j :: 0 <= j < |r| ==> r[j] == row || r[j] in rows
    ensures forall j :: 0 <= j < |rows| ==> rows[j] in r
  {
    hide Before;
    var at := 0;
    while at < |rows| && Before(rows[at].id, row.id)
      invariant 0 <= at <= |rows| && forall j :: 0 <= j < at ==> Before(rows[j].id, row.id)
    {
      at := at + 1;
    }
    InsertedInOrder(rows, row, at);
    r := rows[..at] + [row] + rows[at..];
    assert r[at] == row;
    assert forall j :: 0 <= j < at ==> r[j] == rows[j];
    assert forall j :: at <= j < |rows| ==> r[j + 1] == rows[j];
  }

  lemma InsertedInOrder(rows: seq<Device>, row: Device, at: nat)
    requires InOrder(rows) && at <= |rows| && forall j :: 0 <= j < |rows| ==> rows[j].id != row.id
    requires (forall j :: 0 <= j < at ==> Before(rows[j].id, row.id)) && (at < |rows| ==> !Before(rows[at].id, row.id))
    ensures InOrder(rows[..at] + [row] + rows[at..])
  {
    var r := rows[..at] + [row] + rows[at..];
    forall j, k | 0 <= j < k < |r|
      ensures Before(r[j].id, r[k].id)
    {
      if k > at && at < |rows| {
        assert Before(row.id, rows[at].id);
        assert k - 1 > at ==> Before(rows[at].id, rows[k - 1].id);
      }
    }
  }

  /** Every count is right for the first n. */
  ghost predicate CountsOk(phys: seq<Device>, n: nat, counts: map<Id, nat>)
    requires n <= |phys|
  {
    forall id: Id :: Count(phys, n, id) == if id in counts then counts[id] else 0
  }

  lemma CountsNext(phys: seq<Device>, n: nat, counts: map<Id, nat>)
    requires n < |phys| && CountsOk(phys, n, counts)
    ensures CountsOk(phys, n + 1, counts[phys[n].id := 1 + if phys[n].id in counts then counts[phys[n].id] else 0])
  {
  }

  /** The best physical device of each id, and how many each has. */
  method CollectById(c: Config, phys: seq<Device>) returns (byId: map<Id, Device>, counts: map<Id, nat>)
    ensures BestsOk(c, phys, |phys|, byId) && counts.Keys == byId.Keys && CountsOk(phys, |phys|, counts)
  {
    byId, counts := map[], map[];
    assert BestsOk(c, phys, 0, byId) && CountsOk(phys, 0, counts);
    hide Prefer, BestsOk, CountsOk;
    for n := 0 to |phys|
      invariant BestsOk(c, phys, n, byId) && counts.Keys == byId.Keys && CountsOk(phys, n, counts)
    {
      var d := phys[n];
      BestsNext(c, phys, n, byId);
      CountsNext(phys, n, counts);
      counts := counts[d.id := 1 + if d.id in counts then counts[d.id] else 0];
      if d.id !in byId || Prefer(c, d, byId[d.id]) {
        byId := byId[d.id := d];
      }
    }
  }

  /** The rows of the best physical devices, put in order. */
  method BuildRows(c: Config, byId: map<Id, Device>, counts: map<Id, nat>, ghost devices: seq<Device>) returns (rows: seq<Device>)
    requires byId.Keys == counts.Keys
    requires forall id :: id in byId ==> byId[id].id == id && IsRow(c, devices, Row(byId[id], counts[id] > 1))
    ensures InOrder(rows) && forall k :: 0 <= k < |rows| ==> IsRow(c, devices, rows[k])
    ensures forall id :: id in byId ==> HasRow(rows, id)
  {
    hide IsRow, InOrder, HasRow;
    rows := [];
    NoRows();
    var left := byId.Keys;
    while left != {}
      invariant left <= byId.Keys && InOrder(rows)
      invariant forall k :: 0 <= k < |rows| ==> IsRow(c, devices, rows[k]) && rows[k].id !in left
      invariant forall id :: id in byId && id !in left ==> HasRow(rows, id)
      decreases left
    {
      var id :| id in left;
      var row := Row(byId[id], counts[id] > 1);
      ghost var before := rows;
      rows := InsertRow(rows, row);
      RowsKept(before, rows, row);
      left := left - {id};
    }
  }

  /** One row per id, in order: the interface the transport would open, its identity blanked where it is not alone. */
  method Addressable(c: Config, devices: seq<Device>) returns (rows: seq<Device>)
    ensures RowsOk(c, devices, rows)
  {
    var reps := Deduplicate(c, devices);
    var phys := Physical(devices, reps);
    var byId, counts := CollectById(c, phys);
    AllRows(c, devices, reps, byId, counts);
    hide BestsOk, CountsOk, Representatives, IsRow, Physical;
    rows := BuildRows(c, byId, counts, devices);
    RowsOrdered(rows);
  }

  lemma AllRows(c: Config, devices: seq<Device>, reps: seq<nat>, byId: map<Id, Device>, counts: map<Id, nat>)
    requires Representatives(c, devices, reps) && counts.Keys == byId.Keys
    requires BestsOk(c, Physical(devices, reps), |reps|, byId) && CountsOk(Physical(devices, reps), |reps|, counts)
    ensures forall id :: id in byId ==> byId[id].id == id && IsRow(c, devices, Row(byId[id], counts[id] > 1))
    ensures forall i :: 0 <= i < |devices| ==> devices[i].id in byId
  {
    hide Prefer, IsRow, BestOfPhysical, SamePhysical, BestAmong, Count;
    forall id | id in byId
      ensures byId[id].id == id && IsRow(c, devices, Row(byId[id], counts[id] > 1))
    {
      PhysicalListed(devices, reps, byId[id]);
      assert Count(Physical(devices, reps), |reps|, id) == counts[id];
      RowOfBest(c, devices, reps, byId[id], counts[id]);
    }
    forall i | 0 <= i < |devices|
      ensures devices[i].id in byId
    {
      IdRepresented(c, devices, reps, i);
    }
  }

  lemma PhysicalListed(devices: seq<Device>, reps: seq<nat>, d: Device)
    requires (forall k :: 0 <= k < |reps| ==> reps[k] < |devices|) && d in Physical(devices, reps)[..|reps|]
    ensures d in devices
  {
    var k :| 0 <= k < |reps| && Physical(devices, reps)[..|reps|][k] == d;
    assert devices[reps[k]] == d;
  }

  lemma NoRows()
    ensures InOrder([])
  {
  }

  lemma RowsOrdered(rows: seq<Device>)
    requires InOrder(rows)
    ensures forall j, k :: 0 <= j < k < |rows| ==> Before(rows[j].id, rows[k].id)
  {
  }

  lemma RowOfBest(c: Config, devices: seq<Device>, reps: seq<nat>, d: Device, count: nat)
    requires Representatives(c, devices, reps) && d in devices && BestAmong(c, Physical(devices, reps), |reps|, d)
    requires count == Count(Physical(devices, reps), |reps|, d.id)
    ensures IsRow(c, devices, Row(d, count > 1))
  {
    CountMeans(Physical(devices, reps), |reps|, d.id);
    hide Prefer, KeyOf, BestOfPhysical, BestAmong, TwoOf, Several, BestOfId, Representatives, Count;
    BestRepIsBest(c, devices, reps, d);
    TwoAreSeveral(c, devices, reps, d.id);
  }

  lemma IdRepresented(c: Config, devices: seq<Device>, reps: seq<nat>, i: nat)
    requires Representatives(c, devices, reps) && i < |devices|
    ensures exists k :: 0 <= k < |reps| && Physical(devices, reps)[k].id == devices[i].id
  {
    hide Prefer, KeyOf, BestOfPhysical;
    assert Represented(devices, reps, i);
    var k :| 0 <= k < |reps| && reps[k] < |devices| && (reps[k] == i || SamePhysical(devices[i], devices[reps[k]]));
    SameId(devices[i], devices[reps[k]]);
    assert Physical(devices, reps)[k].id == devices[i].id;
  }

  ghost predicate HasRow(rows: seq<Device>, id: Id) {
    exists k :: 0 <= k < |rows| && rows[k].id == id
  }

  lemma RowsKept(before: seq<Device>, after: seq<Device>, row: Device)
    requires row in after && forall j :: 0 <= j < |before| ==> before[j] in after
    ensures HasRow(after, row.id) && forall id :: HasRow(before, id) ==> HasRow(after, id)
  {
    forall id | HasRow(before, id)
      ensures HasRow(after, id)
    {
      var j :| 0 <= j < |before| && before[j].id == id;
      assert before[j] in after;
    }
  }

  // ---- Enumeration order does not matter

  /** The second list is the first in another order. */
  ghost predicate Reordered(a: seq<Device>, b: seq<Device>, order: seq<nat>) {
    && |a| == |b| == |order| && (forall i :: 0 <= i < |b| ==> order[i] < |a| && b[i] == a[order[i]])
    && (forall i, j :: 0 <= i < j < |order| ==> order[i] != order[j])
    && (forall k :: 0 <= k < |a| ==> k in order)
  }

  /** The same row, but for what the order does not compare. */
  predicate SameRow(a: Device, b: Device) {
    a.id == b.id && a.serial == b.serial && a.path == b.path && a.page == b.page && a.usage == b.usage && a.iface == b.iface
  }

  lemma SeveralReordered(a: seq<Device>, b: seq<Device>, order: seq<nat>, id: Id)
    requires Reordered(a, b, order)
    ensures Several(a, id) <==> Several(b, id)
  {
    hide KeyOf;
    if Several(b, id) {
      var i, j :| 0 <= i < j < |b| && b[i].id == id && b[j].id == id && !SamePhysical(b[i], b[j]);
      var p, q := order[i], order[j];
      assert a[p].id == id && a[q].id == id && !SamePhysical(a[p], a[q]) && !SamePhysical(a[q], a[p]);
      assert p < q || q < p;
    }
    if Several(a, id) {
      var p, q :| 0 <= p < q < |a| && a[p].id == id && a[q].id == id && !SamePhysical(a[p], a[q]);
      assert p in order && q in order;
      var i :| 0 <= i < |order| && order[i] == p;
      var j :| 0 <= j < |order| && order[j] == q;
      assert b[i].id == id && b[j].id == id && !SamePhysical(b[i], b[j]) && !SamePhysical(b[j], b[i]);
      assert i < j || j < i;
    }
  }

  lemma ReorderedHas(a: seq<Device>, b: seq<Device>, order: seq<nat>, d: Device)
    requires Reordered(a, b, order)
    ensures d in a <==> d in b
  {
    if d in a {
      var i :| 0 <= i < |a| && a[i] == d;
      assert i in order;
      var j :| 0 <= j < |order| && order[j] == i;
      assert b[j] == d;
    }
    if d in b {
      var j :| 0 <= j < |b| && b[j] == d;
      assert a[order[j]] == d;
    }
  }

  /** The best interface of an id is the same in any order, but for ties. */
  lemma BestReordered(c: Config, a: seq<Device>, b: seq<Device>, order: seq<nat>, d: Device, e: Device)
    requires Reordered(a, b, order) && d.id == e.id && BestOfId(c, a, d) && BestOfId(c, b, e)
    ensures Tied(d, e)
  {
    hide Prefer;
    ReorderedHas(a, b, order, d);
    ReorderedHas(a, b, order, e);
    var j :| 0 <= j < |b| && b[j] == d;
    var k :| 0 <= k < |a| && a[k] == e;
    PreferOrTied(c, d, e);
  }

  lemma RowReordered(c: Config, a: seq<Device>, b: seq<Device>, order: seq<nat>, r: Device, s: Device)
    requires Reordered(a, b, order) && IsRow(c, a, r) && IsRow(c, b, s) && r.id == s.id
    ensures SameRow(r, s)
  {
    hide BestOfId, Several, Reordered;
    var d :| BestOfId(c, a, d) && StandsFor(r, d, Several(a, d.id));
    var e :| BestOfId(c, b, e) && StandsFor(s, e, Several(b, e.id));
    BestReordered(c, a, b, order, d, e);
    SeveralReordered(a, b, order, d.id);
  }

  lemma BeforeTotal(a: Id, b: Id)
    ensures !Before(a, b) && !Before(b, a) ==> a == b
  {
  }

  lemma IdsDiffer(rows: seq<Device>)
    requires InOrder(rows)
    ensures forall j, k :: 0 <= j < |rows| && 0 <= k < |rows| && rows[j].id == rows[k].id ==> j == k
  {
  }

  /** Rows in order whose every id the other list has too come at the same places. */
  lemma {:induction false} SamePlaces(r: seq<Device>, s: seq<Device>, n: nat)
    requires InOrder(r) && InOrder(s) && n <= |r| && n <= |s|
    requires (forall k :: 0 <= k < |r| ==> HasRow(s, r[k].id)) && (forall k :: 0 <= k < |s| ==> HasRow(r, s[k].id))
    ensures forall k :: 0 <= k < n ==> r[k].id == s[k].id
  {
    hide InOrder, Before, HasRow;
    if n > 0 {
      SamePlaces(r, s, n - 1);
      NotEarlier(r, s, n - 1);
      NotEarlier(s, r, n - 1);
      BeforeTotal(r[n - 1].id, s[n - 1].id);
    }
  }

  lemma NotEarlier(r: seq<Device>, s: seq<Device>, n: nat)
    requires InOrder(r) && InOrder(s) && n < |r| && n < |s| && HasRow(s, r[n].id)
    requires forall k :: 0 <= k < n ==> r[k].id == s[k].id
    ensures !Before(r[n].id, s[n].id)
  {
    IdsDiffer(r);
    var k :| 0 <= k < |s| && s[k].id == r[n].id;
    assert k >= n;
    assert k > n ==> Before(s[n].id, s[k].id);
  }

  /** The rows do not depend on the order of enumeration, but for what the comparison ignores. */
  lemma OrderDoesNotMatter(c: Config, a: seq<Device>, b: seq<Device>, order: seq<nat>, r: seq<Device>, s: seq<Device>)
    requires Reordered(a, b, order) && RowsOk(c, a, r) && RowsOk(c, b, s)
    ensures |r| == |s| && forall k :: 0 <= k < |r| ==> SameRow(r[k], s[k])
  {
    RowIdsShared(c, a, b, order, r, s);
    var n := Min(|r|, |s|);
    SamePlaces(r, s, n);
    NoExtraRow(r, s);
    NoExtraRow(s, r);
    forall k | 0 <= k < |r|
      ensures SameRow(r[k], s[k])
    {
      RowReordered(c, a, b, order, r[k], s[k]);
    }
  }

  lemma NoExtraRow(r: seq<Device>, s: seq<Device>)
    requires InOrder(r) && InOrder(s) && forall k :: 0 <= k < |r| ==> HasRow(s, r[k].id)
    requires forall k :: 0 <= k < Min(|r|, |s|) ==> r[k].id == s[k].id
    ensures |r| <= |s|
  {
    IdsDiffer(r);
    assert |r| > |s| ==> HasRow(s, r[|s|].id);
  }

  lemma RowIdsShared(c: Config, a: seq<Device>, b: seq<Device>, order: seq<nat>, r: seq<Device>, s: seq<Device>)
    requires Reordered(a, b, order) && RowsOk(c, a, r) && RowsOk(c, b, s)
    ensures InOrder(r) && InOrder(s)
    ensures forall k :: 0 <= k < |r| ==> HasRow(s, r[k].id)
    ensures forall k :: 0 <= k < |s| ==> HasRow(r, s[k].id)
  {
    hide IsRow, Reordered, HasRow;
    forall k | 0 <= k < |r|
      ensures HasRow(s, r[k].id)
    {
      RowIdListed(c, a, r[k]);
      ReorderedId(a, b, order, r[k].id);
      IdHasRow(c, b, s, r[k].id);
    }
    forall k | 0 <= k < |s|
      ensures HasRow(r, s[k].id)
    {
      RowIdListed(c, b, s[k]);
      ReorderedId(a, b, order, s[k].id);
      IdHasRow(c, a, r, s[k].id);
    }
  }

  ghost predicate Listed(devices: seq<Device>, id: Id) {
    exists i :: 0 <= i < |devices| && devices[i].id == id
  }

  lemma RowIdListed(c: Config, devices: seq<Device>, row: Device)
    requires IsRow(c, devices, row)
    ensures Listed(devices, row.id)
  {
    hide Several, Prefer;
    var d :| BestOfId(c, devices, d) && StandsFor(row, d, Several(devices, d.id));
    var i :| 0 <= i < |devices| && devices[i] == d;
    assert devices[i].id == row.id;
  }

  lemma ReorderedId(a: seq<Device>, b: seq<Device>, order: seq<nat>, id: Id)
    requires Reordered(a, b, order)
    ensures Listed(a, id) <==> Listed(b, id)
  {
    if Listed(a, id) {
      var i :| 0 <= i < |a| && a[i].id == id;
      ReorderedHas(a, b, order, a[i]);
      var j :| 0 <= j < |b| && b[j] == a[i];
      assert b[j].id == id;
    }
    if Listed(b, id) {
      var i :| 0 <= i < |b| && b[i].id == id;
      ReorderedHas(a, b, order, b[i]);
      var j :| 0 <= j < |a| && a[j] == b[i];
      assert a[j].id == id;
    }
  }

  lemma IdHasRow(c: Config, devices: seq<Device>, rows: seq<Device>, id: Id)
    requires RowsOk(c, devices, rows) && Listed(devices, id)
    ensures HasRow(rows, id)
  {
    hide IsRow, HasRow;
    var i :| 0 <= i < |devices| && devices[i].id == id;
  }

  // ---- The interface the transport opens

  /** The order in which the transport looks at vendor interfaces. */
  predicate Opens(d: Device, e: Device) {
    if d.serial != e.serial then Less(d.serial, e.serial)
    else if d.path != e.path then Less(d.path, e.path)
    else d.iface < e.iface
  }

  lemma OpensChains(d: Device, e: Device, f: Device)
    requires !Opens(e, d) && !Opens(f, e)
    ensures !Opens(f, d)
  {
    LessIsOrder(d.serial, e.serial);
    LessIsOrder(e.serial, f.serial);
    LessIsOrder(d.serial, f.serial);
    LessIsOrder(d.path, e.path);
    LessIsOrder(e.path, f.path);
    LessIsOrder(d.path, f.path);
    if Less(d.serial, e.serial) && Less(e.serial, f.serial) { LessChains(d.serial, e.serial, f.serial); }
    if Less(d.path, e.path) && Less(e.path, f.path) { LessChains(d.path, e.path, f.path); }
  }

  lemma OpensNotBoth(d: Device, e: Device)
    requires Opens(d, e)
    ensures !Opens(e, d)
  {
    LessIsOrder(d.serial, e.serial);
    LessIsOrder(d.path, e.path);
  }

  /** The vendor interface of a target that comes first. */
  ghost predicate FirstVendor(c: Config, target: Id, infos: seq<Device>, d: Device) {
    && d in infos && d.id == target && c.IsVendor(d)
    && forall i :: 0 <= i < |infos| && infos[i].id == target && c.IsVendor(infos[i]) ==> !Opens(infos[i], d)
  }

  ghost predicate AnyVendor(c: Config, target: Id, infos: seq<Device>, n: nat)
    requires n <= |infos|
  {
    exists i :: 0 <= i < n && infos[i].id == target && c.IsVendor(infos[i])
  }

  /** The enumerated interfaces of a target, in order. */
  function TargetsOf(infos: seq<Device>, target: Id, n: nat): (t: seq<Device>)
    requires n <= |infos|
    ensures forall d :: d in t ==> d in infos && d.id == target
  {
    if n == 0 then [] else TargetsOf(infos, target, n - 1) + if infos[n - 1].id == target then [infos[n - 1]] else []
  }

  /** An interface whose usage is not known. */
  predicate Unknown(d: Device) { d.page == 0 && d.usage == 0 }

  /**
   The interface to open: the first vendor interface; on Linux, where an interface may come without its
   usage, the only one there is; and otherwise none.
   */
  method SelectInterface(c: Config, target: Id, infos: seq<Device>, linux: bool) returns (r: Result<Device>)
    ensures AnyVendor(c, target, infos, |infos|) ==> r.Ok? && FirstVendor(c, target, infos, r.value)
    ensures var targets := TargetsOf(infos, target, |infos|);
            !AnyVendor(c, target, infos, |infos|) ==>
              r == if linux && |targets| == 1 && Unknown(targets[0]) then Ok(targets[0]) else Err
  {
    var targets: seq<Device>, matches: seq<Device> := CollectTargets(c, target, infos);
    if |matches| == 0 {
      if linux && |targets| == 1 && Unknown(targets[0]) { return Ok(targets[0]); }
      return Err;
    }
    var first := matches[0];
    for i := 1 to |matches|
      invariant first in matches && forall k :: 0 <= k < i ==> !Opens(matches[k], first)
    {
      if Opens(matches[i], first) {
        OpensNotBoth(matches[i], first);
        forall k | 0 <= k < i
          ensures !Opens(matches[k], matches[i])
        {
          OpensChains(matches[i], first, matches[k]);
        }
        first := matches[i];
      }
    }
    return Ok(first);
  }

  method CollectTargets(c: Config, target: Id, infos: seq<Device>) returns (targets: seq<Device>, matches: seq<Device>)
    ensures targets == TargetsOf(infos, target, |infos|)
    ensures forall d :: d in matches <==> d in infos && d.id == target && c.IsVendor(d)
  {
    targets, matches := [], [];
    for i := 0 to |infos|
      invariant targets == TargetsOf(infos, target, i)
      invariant forall d :: d in matches <==> d in infos[..i] && d.id == target && c.IsVendor(d)
    {
      assert infos[..i + 1] == infos[..i] + [infos[i]];
      if infos[i].id == target {
        targets := targets + [infos[i]];
        if c.IsVendor(infos[i]) {
          matches := matches + [infos[i]];
        }
      }
    }
    assert infos[..|infos|] == infos;
  }

  /**
   Where a vendor interface exists, the one a row stands for is the one the transport opens, but for
   what neither comparison looks at.
   */
  lemma RowIsWhatOpens(c: Config, devices: seq<Device>, d: Device, chosen: Device)
    requires BestOfId(c, devices, d) && FirstVendor(c, d.id, devices, chosen)
    ensures c.IsVendor(d) && Tied(d, chosen)
  {
    LessIsOrder(d.serial, chosen.serial);
    LessIsOrder(d.path, chosen.path);
    assert !Prefer(c, chosen, d);
    assert c.IsVendor(d);
    assert !Opens(d, chosen);
  }
}
