// The store that gives every robot a slug once and for all.
module StableSlugs {
  import opened Common
  import opened Text
  import opened Slug

  datatype DeviceInfo = DeviceInfo(did: string, productId: string, name: string)

  // The key of a device in a list: its ID or, for devices without one, what else is known of it.
  function KeyOf(device: DeviceInfo, index: nat): string {
    var key := TrimSpace(device.did);
    if key != "" then key
    else "legacy:" + TrimSpace(device.productId) + ":" + TrimSpace(device.name) + ":" + Decimal(index)
  }

  // A device with an ID is known by it, whatever else is known of it and wherever it is listed.
  lemma KeysOfIdentified(a: DeviceInfo, i: nat, b: DeviceInfo, j: nat)
    requires TrimSpace(a.did) != "" && TrimSpace(b.did) != ""
    ensures KeyOf(a, i) == KeyOf(b, j) <==> TrimSpace(a.did) == TrimSpace(b.did)
  {
    hide TrimSpace;
  }

  // One without is known by its place in the list, among other things.
  lemma KeysOfNameless(a: DeviceInfo, i: nat, b: DeviceInfo, j: nat)
    requires TrimSpace(a.did) == "" && TrimSpace(b.did) == "" && KeyOf(a, i) == KeyOf(b, j)
    ensures i == j
  {
    hide TrimSpace;
    DecimalDigits(i);
    DecimalDigits(j);
    var front, back := "legacy:" + TrimSpace(a.productId) + ":" + TrimSpace(a.name), KeyOf(a, i);
    var other := "legacy:" + TrimSpace(b.productId) + ":" + TrimSpace(b.name);
    assert back == front + ":" + Decimal(i) && back == other + ":" + Decimal(j);
    assert back[|front|] == ':' && back[|other|] == ':';
    assert forall k :: |front| < k < |back| ==> back[k] == Decimal(i)[k - |front| - 1];
    assert forall k :: |other| < k < |back| ==> back[k] == Decimal(j)[k - |other| - 1];
    assert |front| == |other|;
    assert back[|front| + 1..] == Decimal(i) && back[|front| + 1..] == Decimal(j);
    DecimalInjective(i, j);
  }

  // The first candidate is the base itself; after that they are numbered from 2.
  function Candidate(base: string, n: nat): string {
    if n < 2 then base else base + "-" + Decimal(n)
  }

  lemma CandidatesDiffer(base: string, m: nat, n: nat)
    requires 1 <= m && 1 <= n && Candidate(base, m) == Candidate(base, n)
    ensures m == n
  {
    DecimalDigits(m);
    DecimalDigits(n);
    if m >= 2 && n >= 2 {
      var s := Candidate(base, m);
      assert s[|base| + 1..] == Decimal(m);
      assert s[|base| + 1..] == Decimal(n);
      DecimalInjective(m, n);
    } else {
      assert |Candidate(base, m)| == |Candidate(base, n)|;
    }
  }

  lemma CandidateIsTrimmed(name: string, n: nat)
    ensures var s := Candidate(Slugify(name), n); s != "" && TrimSpace(s) == s
  {
    SlugifyFixesSlugs(name);
    DecimalDigits(n);
    var s := Candidate(Slugify(name), n);
    assert s[0] == Slugify(name)[0] && IsSlugChar(s[0]) && IsSlugChar(s[|s| - 1]);
    NothingToTrim(s);
  }

  ghost function Tried(base: string, n: nat): set<string> {
    set i | 1 <= i < n :: Candidate(base, i)
  }

  // By the pigeonhole principle no more candidates can be taken than there are slugs in use.
  lemma {:induction false} TriedAreMany(base: string, n: nat, used: set<string>)
    requires 1 <= n && Tried(base, n) <= used
    ensures |Tried(base, n)| == n - 1 <= |used|
  {
    Size(base, n);
    SubsetSize(Tried(base, n), used);
  }

  lemma {:induction false} Size(base: string, n: nat)
    requires 1 <= n
    ensures |Tried(base, n)| == n - 1
  {
    if n > 1 {
      Size(base, n - 1);
      assert Tried(base, n) == Tried(base, n - 1) + {Candidate(base, n - 1)};
      if Candidate(base, n - 1) in Tried(base, n - 1) {
        var i :| 1 <= i < n - 1 && Candidate(base, i) == Candidate(base, n - 1);
        CandidatesDiffer(base, i, n - 1);
      }
    }
  }

  lemma {:induction false} SubsetSize(a: set<string>, b: set<string>)
    requires a <= b
    ensures |a| <= |b|
  {
    if a != {} {
      var x :| x in a;
      SubsetSize(a - {x}, b - {x});
    }
  }

  // The smallest candidate that is not in use.
  ghost predicate IsFirstFree(slug: string, base: string, used: set<string>) {
    exists n :: 1 <= n && slug == Candidate(base, n) && slug !in used && Tried(base, n) <= used
  }

  type Table = map<string, string>

  predicate HasSlug(table: Table, key: string) {
    key in table && TrimSpace(table[key]) != ""
  }

  function SlugOf(table: Table, key: string): string {
    if key in table then TrimSpace(table[key]) else ""
  }

  ghost predicate Injective(table: Table) {
    forall k, l :: HasSlug(table, k) && HasSlug(table, l) && SlugOf(table, k) == SlugOf(table, l) ==> k == l
  }

  // What was assigned stays assigned.
  ghost predicate Keeps(before: Table, after: Table) {
    forall k :: HasSlug(before, k) ==> k in after && after[k] == before[k]
  }

  ghost function Assigned(table: Table): set<string> {
    set k | k in table && HasSlug(table, k) :: SlugOf(table, k)
  }

  ghost predicate Resolves(table: Table, devices: seq<DeviceInfo>, resolved: seq<string>) {
    && |resolved| == |devices|
    && forall i :: 0 <= i < |devices| ==>
         HasSlug(table, KeyOf(devices[i], i)) && resolved[i] == SlugOf(table, KeyOf(devices[i], i))
  }

  // A device that had no slug has the smallest one that was free when its turn came.
  ghost predicate ChosenWell(before: Table, devices: seq<DeviceInfo>, resolved: seq<string>)
    requires |resolved| <= |devices|
  {
    forall i :: 0 <= i < |resolved| && IsNew(before, devices, i) ==>
      IsFirstFree(resolved[i], Slugify(devices[i].name), Assigned(before) + Elements(resolved[..i]))
  }

  ghost function Elements(s: seq<string>): set<string> {
    set x | x in s
  }

  // The first device of the list with a key that has no slug.
  ghost predicate IsNew(before: Table, devices: seq<DeviceInfo>, i: nat)
    requires i < |devices|
  {
    && !HasSlug(before, KeyOf(devices[i], i))
    && forall j :: 0 <= j < i ==> KeyOf(devices[j], j) != KeyOf(devices[i], i)
  }

  method FirstFree(base: string, used: set<string>) returns (slug: string)
    ensures IsFirstFree(slug, base, used)
    ensures slug !in used
    ensures slug != base ==>
              && base in used
              && exists n :: n >= 2 && slug == base + "-" + Decimal(n)
                   && forall m :: 2 <= m < n ==> base + "-" + Decimal(m) in used
  {
    slug := base;
    var suffix := 2;
    while slug in used
      invariant suffix >= 2 && slug == Candidate(base, suffix - 1) && Tried(base, suffix - 1) <= used
      decreases |used| + 2 - suffix
    {
      assert Tried(base, suffix) == Tried(base, suffix - 1) + {slug};
      TriedAreMany(base, suffix, used);
      slug := base + "-" + Decimal(suffix);
      suffix := suffix + 1;
    }
    NumberedFrom(base, suffix - 1, used);
  }

  lemma NumberedFrom(base: string, n: nat, used: set<string>)
    requires 1 <= n && Tried(base, n) <= used
    ensures n >= 2 ==> base in used && forall m :: 2 <= m < n ==> base + "-" + Decimal(m) in used
  {
    if n >= 2 {
      assert Candidate(base, 1) in Tried(base, n);
      forall m | 2 <= m < n ensures base + "-" + Decimal(m) in used {
        assert Candidate(base, m) in Tried(base, n);
      }
    }
  }

  lemma AssignOne(before: Table, table: Table, key: string, slug: string)
    requires Keeps(before, table) && !HasSlug(table, key) && slug != "" && TrimSpace(slug) == slug
    requires slug !in Assigned(table)
    ensures Keeps(before, table[key := slug]) && Assigned(table[key := slug]) == Assigned(table) + {slug}
    ensures Injective(table) ==> Injective(table[key := slug])
  {
    hide TrimSpace;
    var after := table[key := slug];
    forall k | HasSlug(table, k) ensures HasSlug(after, k) && SlugOf(after, k) == SlugOf(table, k) != slug {
      assert SlugOf(table, k) in Assigned(table);
    }
    assert HasSlug(after, key) && SlugOf(after, key) == slug;
    forall x ensures x in Assigned(after) <==> x in Assigned(table) + {slug} {
      if x in Assigned(table) {
        var k :| k in table && HasSlug(table, k) && SlugOf(table, k) == x;
        assert HasSlug(after, k) && SlugOf(after, k) == x;
      }
      if x in Assigned(after) {
        var k :| k in after && HasSlug(after, k) && SlugOf(after, k) == x;
        assert k != key ==> HasSlug(table, k) && SlugOf(table, k) == x;
      }
    }
  }

  lemma KeepsSame(table: Table)
    ensures Keeps(table, table)
  {
  }

  // Keeping what was assigned keeps what was resolved.
  lemma StaysResolved(before: Table, after: Table, devices: seq<DeviceInfo>, resolved: seq<string>)
    requires Keeps(before, after) && Resolves(before, devices, resolved)
    ensures Resolves(after, devices, resolved)
  {
    hide TrimSpace;
    forall i | 0 <= i < |devices|
      ensures HasSlug(after, KeyOf(devices[i], i)) && resolved[i] == SlugOf(after, KeyOf(devices[i], i))
    {
      assert HasSlug(before, KeyOf(devices[i], i));
    }
  }

  lemma ResolvedAll(table: Table, devices: seq<DeviceInfo>, resolved: seq<string>)
    requires Resolves(table, devices, resolved)
    ensures !AnyWithout(table, devices, |devices|)
  {
    hide TrimSpace, KeyOf, HasSlug, SlugOf;
  }

  // In an injective table, devices have the same slug only if they have the same key.
  lemma SlugsTellDevicesApart(table: Table, devices: seq<DeviceInfo>, resolved: seq<string>,
                              others: seq<DeviceInfo>, theirs: seq<string>, i: nat, j: nat)
    requires Injective(table) && Resolves(table, devices, resolved) && Resolves(table, others, theirs)
    requires i < |devices| && j < |others|
    ensures resolved[i] == theirs[j] <==> KeyOf(devices[i], i) == KeyOf(others[j], j)
  {
    hide TrimSpace;
    assert HasSlug(table, KeyOf(devices[i], i)) && HasSlug(table, KeyOf(others[j], j));
  }

  // Robots with IDs have the same slug exactly if they have the same ID, whatever their names.
  lemma SlugsTellIdsApart(table: Table, devices: seq<DeviceInfo>, resolved: seq<string>,
                          others: seq<DeviceInfo>, theirs: seq<string>, i: nat, j: nat)
    requires Injective(table) && Resolves(table, devices, resolved) && Resolves(table, others, theirs)
    requires i < |devices| && j < |others| && TrimSpace(devices[i].did) != "" && TrimSpace(others[j].did) != ""
    ensures resolved[i] == theirs[j] <==> TrimSpace(devices[i].did) == TrimSpace(others[j].did)
  {
    hide TrimSpace, KeyOf, Injective, Resolves;
    ResolvedEach(table, devices, resolved);
    ResolvedEach(table, others, theirs);
    SlugsTellDevicesApart(table, devices, resolved, others, theirs, i, j);
    KeysOfIdentified(devices[i], i, others[j], j);
  }

  lemma ResolvedEach(table: Table, devices: seq<DeviceInfo>, resolved: seq<string>)
    requires Resolves(table, devices, resolved)
    ensures |resolved| == |devices|
  {
  }

  // Nothing changes but the entries of listed devices that had no slug.
  ghost predicate OnlyThese(before: Table, after: Table, devices: seq<DeviceInfo>, n: nat)
    requires n <= |devices|
  {
    forall k :: Differ(before, after, k) ==> !HasSlug(before, k) && Listed(devices, n, k)
  }

  predicate Differ(before: Table, after: Table, k: string) {
    (k in before) != (k in after) || (k in before && before[k] != after[k])
  }

  // One of the first devices has the key.
  ghost predicate Listed(devices: seq<DeviceInfo>, n: nat, key: string)
    requires n <= |devices|
  {
    exists i :: 0 <= i < n && KeyOf(devices[i], i) == key
  }

  // One of the first devices has no slug.
  ghost predicate AnyWithout(table: Table, devices: seq<DeviceInfo>, n: nat)
    requires n <= |devices|
  {
    exists i :: 0 <= i < n && !HasSlug(table, KeyOf(devices[i], i))
  }

  lemma FirstFreeIsTrimmed(slug: string, name: string, used: set<string>)
    requires IsFirstFree(slug, Slugify(name), used)
    ensures slug != "" && TrimSpace(slug) == slug && slug !in used
  {
    hide TrimSpace, Slugify, Candidate, Tried;
    var n :| 1 <= n && slug == Candidate(Slugify(name), n) && slug !in used && Tried(Slugify(name), n) <= used;
    CandidateIsTrimmed(name, n);
  }

  lemma Initially(table: Table, devices: seq<DeviceInfo>)
    ensures Keeps(table, table) && OnlyThese(table, table, devices, 0) && !AnyWithout(table, devices, 0)
    ensures Resolves(table, devices[..0], []) && ChosenWell(table, devices, [])
  {
  }

  lemma OnlyMore(before: Table, table: Table, after: Table, devices: seq<DeviceInfo>, i: nat, slug: string)
    requires i < |devices| && Keeps(before, table) && OnlyThese(before, table, devices, i)
    requires var key := KeyOf(devices[i], i); after == if HasSlug(table, key) then table else table[key := slug]
    ensures OnlyThese(before, after, devices, i + 1)
    ensures AnyWithout(before, devices, i + 1) <==>
              AnyWithout(before, devices, i) || !HasSlug(table, KeyOf(devices[i], i))
  {
    hide TrimSpace, KeyOf;
    var key := KeyOf(devices[i], i);
    assert Listed(devices, i + 1, key);
    forall k | Differ(before, after, k) ensures !HasSlug(before, k) && Listed(devices, i + 1, k) {
      if k != key {
        assert Differ(before, table, k) && Listed(devices, i, k);
      }
    }
    if HasSlug(table, key) && !HasSlug(before, key) {
      assert Differ(before, table, key) && Listed(devices, i, key);
    }
  }

  lemma ResolvedMore(table: Table, after: Table, devices: seq<DeviceInfo>, resolved: seq<string>, slug: string)
    requires |resolved| < |devices| && Keeps(table, after) && Resolves(table, devices[..|resolved|], resolved)
    requires var key := KeyOf(devices[|resolved|], |resolved|); HasSlug(after, key) && slug == SlugOf(after, key)
    ensures Resolves(after, devices[..|resolved| + 1], resolved + [slug])
  {
    StaysResolved(table, after, devices[..|resolved|], resolved);
    hide TrimSpace, KeyOf, HasSlug, SlugOf, Keeps;
    var n := |resolved|;
    forall i | 0 <= i < n + 1
      ensures HasSlug(after, KeyOf(devices[..n + 1][i], i))
      ensures (resolved + [slug])[i] == SlugOf(after, KeyOf(devices[..n + 1][i], i))
    {
      assert i < n ==> devices[..n + 1][i] == devices[..n][i];
    }
  }

  lemma ChosenMore(before: Table, table: Table, devices: seq<DeviceInfo>, resolved: seq<string>, slug: string)
    requires |resolved| < |devices| && OnlyThese(before, table, devices, |resolved|)
    requires ChosenWell(before, devices, resolved)
    requires !HasSlug(table, KeyOf(devices[|resolved|], |resolved|)) ==>
               IsFirstFree(slug, Slugify(devices[|resolved|].name), Assigned(before) + Elements(resolved))
    ensures ChosenWell(before, devices, resolved + [slug])
  {
    hide TrimSpace, KeyOf, Slugify, IsFirstFree, Assigned, Elements;
    var n := |resolved|;
    forall i | 0 <= i < n + 1 && IsNew(before, devices, i)
      ensures IsFirstFree((resolved + [slug])[i], Slugify(devices[i].name),
                          Assigned(before) + Elements((resolved + [slug])[..i]))
    {
      assert (resolved + [slug])[..i] == resolved[..i];
      if i == n {
        var key := KeyOf(devices[i], i);
        assert !Listed(devices, n, key);
        assert !Differ(before, table, key);
        assert resolved[..i] == resolved;
      }
    }
  }

  class StableSlugStore {
    var byDevice: Table
    // The file the table is saved in.
    var file: Table

    constructor (file: Table)
      ensures byDevice == file && this.file == file
    {
      byDevice, this.file := file, file;
    }

    // The slugs of a list of devices, in order; new ones are assigned and saved. Saving may fail.
    method Resolve(devices: seq<DeviceInfo>, saves: bool) returns (r: Result<seq<string>, string>)
      modifies this
      ensures Keeps(old(byDevice), byDevice) && (Injective(old(byDevice)) ==> Injective(byDevice))
      ensures OnlyThese(old(byDevice), byDevice, devices, |devices|) && !AnyWithout(byDevice, devices, |devices|)
      ensures r.Ok? ==> Resolves(byDevice, devices, r.value) && ChosenWell(old(byDevice), devices, r.value)
      ensures var changed := AnyWithout(old(byDevice), devices, |devices|);
              && (r.Err? <==> changed && !saves)
              && file == (if changed && saves then byDevice else old(file))
              && (!changed ==> byDevice == old(byDevice))
    {
      hide HasSlug, SlugOf, KeyOf, Injective, Keeps, Resolves, ChosenWell, OnlyThese, AnyWithout;
      var used := set k | k in byDevice && HasSlug(byDevice, k) :: SlugOf(byDevice, k);
      var changed := false;
      var resolved: seq<string> := [];
      Initially(byDevice, devices);
      for i := 0 to |devices|
        invariant |resolved| == i && file == old(file)
        invariant used == Assigned(old(byDevice)) + Elements(resolved) && Assigned(byDevice) <= used
        invariant Keeps(old(byDevice), byDevice) && (Injective(old(byDevice)) ==> Injective(byDevice))
        invariant OnlyThese(old(byDevice), byDevice, devices, i)
        invariant Resolves(byDevice, devices[..i], resolved) && ChosenWell(old(byDevice), devices, resolved)
        invariant changed == AnyWithout(old(byDevice), devices, i) && (!changed ==> byDevice == old(byDevice))
      {
        ghost var table := byDevice;
        var slug, isNew := ResolveOne(KeyOf(devices[i], i), devices[i].name, used, old(byDevice));
        OnlyMore(old(byDevice), table, byDevice, devices, i, slug);
        ResolvedMore(table, byDevice, devices, resolved, slug);
        ChosenMore(old(byDevice), table, devices, resolved, slug);
        assert Elements(resolved + [slug]) == Elements(resolved) + {slug};
        changed := changed || isNew;
        used := used + {slug};
        resolved := resolved + [slug];
      }
      assert devices[..|devices|] == devices;
      ResolvedAll(byDevice, devices, resolved);
      if changed {
        if !saves {
          return Err("replace stable device slugs");
        }
        file := byDevice;
      }
      return Ok(resolved);
    }

    // The slug of one device, assigned if it has none.
    method ResolveOne(key: string, name: string, used: set<string>, ghost before: Table)
        returns (slug: string, isNew: bool)
      requires Assigned(byDevice) <= used && Keeps(before, byDevice)
      modifies this`byDevice
      ensures HasSlug(byDevice, key) && slug == SlugOf(byDevice, key)
      ensures Assigned(byDevice) == Assigned(old(byDevice)) + {slug}
      ensures Keeps(before, byDevice) && Keeps(old(byDevice), byDevice)
      ensures Injective(old(byDevice)) ==> Injective(byDevice)
      ensures isNew <==> !HasSlug(old(byDevice), key)
      ensures byDevice == if isNew then old(byDevice)[key := slug] else old(byDevice)
      ensures isNew ==> slug !in used && IsFirstFree(slug, Slugify(name), used)
    {
      hide TrimSpace, Slugify, Injective, Keeps, Candidate;
      KeepsSame(byDevice);
      slug := SlugOf(byDevice, key);
      isNew := slug == "";
      if isNew {
        slug := FirstFree(Slugify(name), used);
        FirstFreeIsTrimmed(slug, name, used);
        AssignOne(before, byDevice, key, slug);
        AssignOne(byDevice, byDevice, key, slug);
        byDevice := byDevice[key := slug];
      } else {
        assert slug in Assigned(byDevice);
        assert Assigned(byDevice) + {slug} == Assigned(byDevice);
      }
    }
  }

  lemma KeepsOn(a: Table, b: Table, c: Table)
    requires Keeps(a, b) && Keeps(b, c)
    ensures Keeps(a, c)
  {
    hide TrimSpace;
  }
}
