// What becomes of slugs over many calls, failing saves and restarts.
module SlugHistory {
  import opened Common
  import opened Text
  import opened Slug
  import opened StableSlugs

  datatype Call = Call(devices: seq<DeviceInfo>, saves: bool)

  // The table before the first call, and after each.
  ghost predicate History(tables: seq<Table>, calls: seq<Call>) {
    && |tables| == |calls| + 1
    && forall m :: 0 <= m < |calls| ==> Followed(tables[m], calls[m], tables[m + 1])
  }

  ghost predicate Followed(before: Table, call: Call, after: Table) {
    && Keeps(before, after) && !AnyWithout(after, call.devices, |call.devices|)
    && (!AnyWithout(before, call.devices, |call.devices|) ==> after == before)
  }

  // Call m assigned a slug.
  ghost predicate Assigns(tables: seq<Table>, calls: seq<Call>, m: nat)
    requires m < |calls| < |tables|
  {
    AnyWithout(tables[m], calls[m].devices, |calls[m].devices|)
  }

  // What the file holds after n calls, if it held the first table.
  ghost function Saved(tables: seq<Table>, calls: seq<Call>, n: nat): Table
    requires n <= |calls| < |tables|
  {
    if n == 0 then tables[0]
    else if Assigns(tables, calls, n - 1) && calls[n - 1].saves then tables[n]
    else Saved(tables, calls, n - 1)
  }

  // A call from k on, among the first n, assigned a slug and was saved.
  ghost predicate SavedSince(tables: seq<Table>, calls: seq<Call>, k: nat, n: nat)
    requires n <= |calls| < |tables|
  {
    exists m :: k <= m < n && Assigns(tables, calls, m) && calls[m].saves
  }

  lemma {:induction false} KeepsAlong(tables: seq<Table>, calls: seq<Call>, i: nat, j: nat)
    requires History(tables, calls) && i <= j <= |calls|
    ensures Keeps(tables[i], tables[j])
    decreases j
  {
    hide Keeps, AnyWithout;
    if i == j {
      KeepsSame(tables[i]);
    } else {
      KeepsAlong(tables, calls, i, j - 1);
      assert Followed(tables[j - 1], calls[j - 1], tables[j]);
      KeepsOn(tables[i], tables[j - 1], tables[j]);
    }
  }

  lemma {:induction false} SavedWithin(tables: seq<Table>, calls: seq<Call>, n: nat)
    requires History(tables, calls) && n <= |calls|
    ensures Keeps(Saved(tables, calls, n), tables[n])
  {
    hide Keeps, AnyWithout;
    KeepsSame(tables[n]);
    if n > 0 {
      SavedWithin(tables, calls, n - 1);
      assert Followed(tables[n - 1], calls[n - 1], tables[n]);
      KeepsOn(Saved(tables, calls, n - 1), tables[n - 1], tables[n]);
    }
  }

  lemma {:induction false} NotSavedSince(tables: seq<Table>, calls: seq<Call>, k: nat, n: nat)
    requires k <= n <= |calls| < |tables| && !SavedSince(tables, calls, k, n)
    ensures Saved(tables, calls, n) == Saved(tables, calls, k)
    decreases n
  {
    hide Assigns;
    if k < n {
      assert !(Assigns(tables, calls, n - 1) && calls[n - 1].saves);
      NotSavedSince(tables, calls, k, n - 1);
    }
  }

  lemma {:induction false} SavedSinceIs(tables: seq<Table>, calls: seq<Call>, k: nat, n: nat) returns (m: nat)
    requires n <= |calls| < |tables| && SavedSince(tables, calls, k, n)
    ensures k <= m < n && Saved(tables, calls, n) == tables[m + 1]
    decreases n
  {
    hide Assigns;
    if Assigns(tables, calls, n - 1) && calls[n - 1].saves {
      m := n - 1;
    } else {
      m := SavedSinceIs(tables, calls, k, n - 1);
    }
  }

  // The file holds at least the table after call k if a call from there on was saved, and at most the
  // table before it otherwise.
  lemma SavedBounds(tables: seq<Table>, calls: seq<Call>, k: nat, n: nat)
    requires History(tables, calls) && k <= n <= |calls|
    ensures SavedSince(tables, calls, k, n) ==> k < n && Keeps(tables[k + 1], Saved(tables, calls, n))
    ensures !SavedSince(tables, calls, k, n) ==> Keeps(Saved(tables, calls, n), tables[k])
  {
    hide Keeps, AnyWithout, Saved;
    if SavedSince(tables, calls, k, n) {
      var m := SavedSinceIs(tables, calls, k, n);
      KeepsAlong(tables, calls, k + 1, m + 1);
    } else {
      NotSavedSince(tables, calls, k, n);
      SavedWithin(tables, calls, k);
    }
  }

  // A slug assigned by call k is in the file at the end exactly if that call, or a later one that assigned
  // something, was saved.
  lemma RememberedIff(tables: seq<Table>, calls: seq<Call>, k: nat, key: string)
    requires History(tables, calls) && k < |calls|
    requires !HasSlug(tables[k], key) && HasSlug(tables[k + 1], key)
    ensures HasSlug(Saved(tables, calls, |calls|), key) <==> SavedSince(tables, calls, k, |calls|)
    ensures HasSlug(Saved(tables, calls, |calls|), key) ==>
              SlugOf(Saved(tables, calls, |calls|), key) == SlugOf(tables[k + 1], key)
  {
    SavedBounds(tables, calls, k, |calls|);
    hide TrimSpace, Saved, SavedSince, History;
  }

  // The last call that assigned a slug, if there is one, was saved.
  ghost predicate LastSaved(tables: seq<Table>, calls: seq<Call>)
    requires |calls| < |tables|
  {
    forall m :: 0 <= m < |calls| && Assigns(tables, calls, m) ==> SavedSince(tables, calls, m, |calls|)
  }

  lemma NothingAssigned(tables: seq<Table>, calls: seq<Call>, m: nat)
    requires History(tables, calls) && m < |calls| && !Assigns(tables, calls, m)
    ensures tables[m + 1] == tables[m]
  {
    hide Keeps, AnyWithout;
    assert Followed(tables[m], calls[m], tables[m + 1]);
  }

  lemma {:induction false} SavedIsLast(tables: seq<Table>, calls: seq<Call>, n: nat)
    requires History(tables, calls) && n <= |calls|
    requires forall m :: 0 <= m < n && Assigns(tables, calls, m) ==> SavedSince(tables, calls, m, n)
    ensures Saved(tables, calls, n) == tables[n]
    decreases n
  {
    hide Assigns, Followed, SavedSince;
    if n > 0 && !(Assigns(tables, calls, n - 1) && calls[n - 1].saves) {
      SavedBefore(tables, calls, n - 1, n);
      NothingAssigned(tables, calls, n - 1);
      forall m | 0 <= m < n - 1 && Assigns(tables, calls, m) ensures SavedSince(tables, calls, m, n - 1) {
        SavedBefore(tables, calls, m, n);
      }
      SavedIsLast(tables, calls, n - 1);
    }
  }

  // A call that was not saved, or assigned nothing, adds nothing.
  lemma SavedBefore(tables: seq<Table>, calls: seq<Call>, m: nat, n: nat)
    requires m < n <= |calls| < |tables| && !(Assigns(tables, calls, n - 1) && calls[n - 1].saves)
    ensures SavedSince(tables, calls, m, n) <==> m < n - 1 && SavedSince(tables, calls, m, n - 1)
  {
    hide Assigns;
  }

  // The file holds the table at the end, and every slug that was given, exactly if no call assigned a slug
  // or the last one that did was saved.
  lemma InStepIff(tables: seq<Table>, calls: seq<Call>)
    requires History(tables, calls)
    ensures Saved(tables, calls, |calls|) == tables[|calls|] <==> LastSaved(tables, calls)
    ensures Keeps(tables[|calls|], Saved(tables, calls, |calls|)) <==> LastSaved(tables, calls)
  {
    hide Keeps, AnyWithout, Saved;
    KeepsSame(tables[|calls|]);
    if LastSaved(tables, calls) {
      SavedIsLast(tables, calls, |calls|);
    }
    if Keeps(tables[|calls|], Saved(tables, calls, |calls|)) {
      forall m | 0 <= m < |calls| && Assigns(tables, calls, m) ensures SavedSince(tables, calls, m, |calls|) {
        UnsavedIsMissing(tables, calls, m);
      }
    }
  }

  lemma UnsavedIsMissing(tables: seq<Table>, calls: seq<Call>, m: nat)
    requires History(tables, calls) && m < |calls| && Assigns(tables, calls, m)
    requires Keeps(tables[|calls|], Saved(tables, calls, |calls|))
    ensures SavedSince(tables, calls, m, |calls|)
  {
    assert Followed(tables[m], calls[m], tables[m + 1]);
    hide Keeps, AnyWithout, Saved, SavedSince, History, Followed;
    SavedBounds(tables, calls, m, |calls|);
    KeepsAlong(tables, calls, m + 1, |calls|);
    NewSlugStays(tables[m], tables[m + 1], tables[|calls|], calls[m]);
    if Keeps(Saved(tables, calls, |calls|), tables[m]) {
      KeepsOn(tables[|calls|], Saved(tables, calls, |calls|), tables[m]);
    }
  }

  // A call that assigned a slug added one that later tables have and earlier ones have not.
  lemma NewSlugStays(before: Table, after: Table, later: Table, call: Call)
    requires Followed(before, call, after) && AnyWithout(before, call.devices, |call.devices|) && Keeps(after, later)
    ensures !Keeps(later, before)
  {
    hide TrimSpace, KeyOf;
    var i :| 0 <= i < |call.devices| && !HasSlug(before, KeyOf(call.devices[i], i));
    assert HasSlug(after, KeyOf(call.devices[i], i));
    assert HasSlug(later, KeyOf(call.devices[i], i));
  }

  // What the calls returned: an error exactly if a new slug could not be saved, the slugs otherwise.
  ghost predicate Answered(tables: seq<Table>, calls: seq<Call>, results: seq<Result<seq<string>, string>>)
    requires |tables| == |calls| + 1
  {
    && |results| == |calls|
    && forall m :: 0 <= m < |calls| ==>
         && (results[m].Err? <==> Assigns(tables, calls, m) && !calls[m].saves)
         && (results[m].Ok? ==> Resolves(tables[m + 1], calls[m].devices, results[m].value))
  }

  // One process: any calls on one store that starts from the file.
  method ResolveCalls(stored: Table, calls: seq<Call>)
      returns (file: Table, results: seq<Result<seq<string>, string>>, ghost tables: seq<Table>)
    requires Injective(stored)
    ensures History(tables, calls) && tables[0] == stored && Injective(tables[|calls|])
    ensures Answered(tables, calls, results) && file == Saved(tables, calls, |calls|)
  {
    hide TrimSpace, KeyOf, Injective, Keeps, Resolves, ChosenWell, OnlyThese, AnyWithout;
    var store := new StableSlugStore(stored);
    tables, results := [stored], [];
    for n := 0 to |calls|
      invariant History(tables, calls[..n]) && tables[0] == stored && tables[n] == store.byDevice
      invariant Injective(store.byDevice) && fresh(store)
      invariant Answered(tables, calls[..n], results) && store.file == Saved(tables, calls[..n], n)
    {
      var r := store.Resolve(calls[n].devices, calls[n].saves);
      OneCallMore(tables, calls[..n], results, calls[n], store.byDevice, r);
      assert calls[..n + 1] == calls[..n] + [calls[n]];
      tables, results := tables + [store.byDevice], results + [r];
    }
    assert calls[..|calls|] == calls;
    file := store.file;
  }

  lemma {:induction false} SavedPrefix(tables: seq<Table>, calls: seq<Call>, n: nat, more: seq<Table>,
                                       others: seq<Call>)
    requires n <= |calls| < |tables| && n <= |others| < |more|
    requires forall m :: 0 <= m < n ==> calls[m] == others[m] && tables[m] == more[m]
    requires tables[n] == more[n]
    ensures Saved(tables, calls, n) == Saved(more, others, n)
  {
    if n > 0 {
      SavedPrefix(tables, calls, n - 1, more, others);
    }
  }

  lemma OneCallMore(tables: seq<Table>, calls: seq<Call>, results: seq<Result<seq<string>, string>>,
                    call: Call, after: Table, r: Result<seq<string>, string>)
    requires History(tables, calls) && Answered(tables, calls, results)
    requires Followed(tables[|calls|], call, after)
    requires r.Err? <==> AnyWithout(tables[|calls|], call.devices, |call.devices|) && !call.saves
    requires r.Ok? ==> Resolves(after, call.devices, r.value)
    ensures History(tables + [after], calls + [call]) && Answered(tables + [after], calls + [call], results + [r])
    ensures Saved(tables + [after], calls + [call], |calls| + 1) ==
            if AnyWithout(tables[|calls|], call.devices, |call.devices|) && call.saves then after
            else Saved(tables, calls, |calls|)
  {
    hide Keeps, AnyWithout, Resolves;
    SavedPrefix(tables, calls, |calls|, tables + [after], calls + [call]);
  }

  type Results = seq<Result<seq<string>, string>>

  // One process, from the file it starts from to the file it leaves.
  ghost predicate Life(stored: Table, calls: seq<Call>, tables: seq<Table>, results: Results, file: Table) {
    && History(tables, calls) && tables[0] == stored && Answered(tables, calls, results)
    && file == Saved(tables, calls, |calls|) && Injective(tables[|calls|]) && Injective(file)
  }

  // Any number of processes one after the other.
  ghost predicate Lives(lives: seq<seq<Call>>, files: seq<Table>, histories: seq<seq<Table>>, results: seq<Results>) {
    && |histories| == |results| == |lives| && |files| == |lives| + 1
    && (forall a :: 0 <= a < |lives| ==> |histories[a]| == |lives[a]| + 1 && |results[a]| == |lives[a]|)
    && forall a :: 0 <= a < |lives| ==> Life(files[a], lives[a], histories[a], results[a], files[a + 1])
  }

  method LiveThrough(stored: Table, lives: seq<seq<Call>>)
      returns (results: seq<Results>, ghost files: seq<Table>, ghost histories: seq<seq<Table>>)
    requires Injective(stored)
    ensures Lives(lives, files, histories, results) && files[0] == stored
  {
    hide Injective, Life;
    results, histories, files := [], [], [stored];
    var file := stored;
    for n := 0 to |lives|
      invariant Lives(lives[..n], files, histories, results) && files[0] == stored && files[n] == file
      invariant Injective(file)
    {
      var next, r, tables := ResolveCalls(file, lives[n]);
      assert |tables| == |lives[n]| + 1 && |r| == |lives[n]|;
      assert Life(file, lives[n], tables, r, next) && Injective(next) by {
        hide Keeps, AnyWithout;
        FileIsInjective(tables, lives[n]);
        IsLife(file, lives[n], tables, r, next);
      }
      assert lives[..n + 1] == lives[..n] + [lives[n]];
      results, histories, files, file := results + [r], histories + [tables], files + [next], next;
    }
    assert lives[..|lives|] == lives;
  }

  lemma IsLife(stored: Table, calls: seq<Call>, tables: seq<Table>, results: Results, file: Table)
    requires History(tables, calls) && tables[0] == stored && Answered(tables, calls, results)
    requires file == Saved(tables, calls, |calls|) && Injective(tables[|calls|]) && Injective(file)
    ensures Life(stored, calls, tables, results, file)
  {
  }

  lemma InjectiveBelow(a: Table, b: Table)
    requires Keeps(a, b) && Injective(b)
    ensures Injective(a)
  {
    hide TrimSpace;
    assert forall k :: HasSlug(a, k) ==> HasSlug(b, k) && SlugOf(a, k) == SlugOf(b, k);
  }

  lemma FileIsInjective(tables: seq<Table>, calls: seq<Call>)
    requires History(tables, calls) && Injective(tables[|calls|])
    ensures Injective(Saved(tables, calls, |calls|))
  {
    hide TrimSpace, Injective, Saved, Keeps;
    SavedWithin(tables, calls, |calls|);
    InjectiveBelow(Saved(tables, calls, |calls|), tables[|calls|]);
  }

  // Every slug that was returned is in the table of the last process whose history so far was kept.
  lemma {:induction false} StaysAlong(lives: seq<seq<Call>>, files: seq<Table>, histories: seq<seq<Table>>,
                                      results: seq<Results>, a: nat, m: nat, b: nat)
    requires Lives(lives, files, histories, results) && a <= b < |lives| && m < |lives[a]| && results[a][m].Ok?
    requires forall i :: a <= i < b ==> LastSaved(histories[i], lives[i])
    ensures Resolves(histories[b][|lives[b]|], lives[a][m].devices, results[a][m].value)
    decreases b
  {
    hide Resolves, Keeps, LastSaved, AnyWithout, Injective;
    assert Life(files[b], lives[b], histories[b], results[b], files[b + 1]);
    if a == b {
      KeepsAlong(histories[a], lives[a], m + 1, |lives[a]|);
      StaysResolved(histories[a][m + 1], histories[a][|lives[a]|], lives[a][m].devices, results[a][m].value);
    } else {
      assert Life(files[b - 1], lives[b - 1], histories[b - 1], results[b - 1], files[b]);
      StaysAlong(lives, files, histories, results, a, m, b - 1);
      InStepIff(histories[b - 1], lives[b - 1]);
      KeepsAlong(histories[b], lives[b], 0, |lives[b]|);
      assert histories[b][0] == files[b] == histories[b - 1][|lives[b - 1]|];
      StaysResolved(histories[b][0], histories[b][|lives[b]|], lives[a][m].devices, results[a][m].value);
    }
  }

  // With the lists in any order and the program restarted, a slug stands for one key and a key for one slug, as
  // long as every process in between had its last assignment saved.
  lemma SlugsStandForKeys(lives: seq<seq<Call>>, files: seq<Table>, histories: seq<seq<Table>>, results: seq<Results>,
                          a: nat, m: nat, i: nat, b: nat, n: nat, j: nat)
    requires Lives(lives, files, histories, results) && a <= b < |lives|
    requires m < |lives[a]| && n < |lives[b]| && i < |lives[a][m].devices| && j < |lives[b][n].devices|
    requires results[a][m].Ok? && results[b][n].Ok?
    requires forall k :: a <= k < b ==> LastSaved(histories[k], lives[k])
    ensures i < |results[a][m].value| && j < |results[b][n].value|
    ensures results[a][m].value[i] == results[b][n].value[j] <==>
              KeyOf(lives[a][m].devices[i], i) == KeyOf(lives[b][n].devices[j], j)
  {
    hide LastSaved, History, Answered, Saved, KeyOf, Injective;
    StaysAlong(lives, files, histories, results, a, m, b);
    StaysAlong(lives, files, histories, results, b, n, b);
    assert Life(files[b], lives[b], histories[b], results[b], files[b + 1]);
    SlugsTellDevicesApart(histories[b][|lives[b]|], lives[a][m].devices, results[a][m].value,
                          lives[b][n].devices, results[b][n].value, i, j);
  }

  // What the slugs are for: in the same way, robots have the same slug exactly if they have the same ID, however
  // they are named or renamed and wherever they are listed.
  lemma SlugsStandForIds(lives: seq<seq<Call>>, files: seq<Table>, histories: seq<seq<Table>>, results: seq<Results>,
                         a: nat, m: nat, i: nat, b: nat, n: nat, j: nat)
    requires Lives(lives, files, histories, results) && a <= b < |lives|
    requires m < |lives[a]| && n < |lives[b]| && i < |lives[a][m].devices| && j < |lives[b][n].devices|
    requires results[a][m].Ok? && results[b][n].Ok?
    requires forall k :: a <= k < b ==> LastSaved(histories[k], lives[k])
    requires TrimSpace(lives[a][m].devices[i].did) != "" && TrimSpace(lives[b][n].devices[j].did) != ""
    ensures i < |results[a][m].value| && j < |results[b][n].value|
    ensures results[a][m].value[i] == results[b][n].value[j] <==>
              TrimSpace(lives[a][m].devices[i].did) == TrimSpace(lives[b][n].devices[j].did)
  {
    SlugsStandForKeys(lives, files, histories, results, a, m, i, b, n, j);
    hide Lives, LastSaved, KeyOf, TrimSpace;
    KeysOfIdentified(lives[a][m].devices[i], i, lives[b][n].devices[j], j);
  }

  // And two entries of one list that have no ID never get the same slug.
  lemma SlugsStandForEntries(lives: seq<seq<Call>>, files: seq<Table>, histories: seq<seq<Table>>,
                             results: seq<Results>, a: nat, m: nat, i: nat, j: nat)
    requires Lives(lives, files, histories, results) && a < |lives| && m < |lives[a]| && results[a][m].Ok?
    requires i < |lives[a][m].devices| && j < |lives[a][m].devices|
    requires TrimSpace(lives[a][m].devices[i].did) == "" && TrimSpace(lives[a][m].devices[j].did) == ""
    ensures i < |results[a][m].value| && j < |results[a][m].value|
    ensures results[a][m].value[i] == results[a][m].value[j] <==> i == j
  {
    SlugsStandForKeys(lives, files, histories, results, a, m, i, a, m, j);
    hide Lives, LastSaved, KeyOf, TrimSpace;
    if results[a][m].value[i] == results[a][m].value[j] {
      KeysOfNameless(lives[a][m].devices[i], i, lives[a][m].devices[j], j);
    }
  }

  // Without that it fails: a slug whose save failed is not saved by the next call either, which sees no
  // change, and a restart forgets it.
  method UnsavedIsForgotten(device: DeviceInfo) returns (first: bool, second: bool, stored: Table)
    ensures !first && second && stored == map[]
  {
    hide TrimSpace, KeyOf, Injective, Keeps, Resolves, ChosenWell, OnlyThese;
    var store := new StableSlugStore(map[]);
    assert !HasSlug(store.byDevice, KeyOf([device][0], 0));
    hide HasSlug, AnyWithout;
    var r := store.Resolve([device], false);
    first := r.Ok?;
    r := store.Resolve([device], true);
    second, stored := r.Ok?, store.file;
  }
}
