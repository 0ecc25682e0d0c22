/** The folder forest of the asset library: batch moves and deletions as all-or-nothing transactions. */
module Folders {
  import opened Frames

  type Id = nat

  /** Every folder and its parent. */
  type Table = map<Id, Option<Id>>

  datatype Row = Row(id: Id, parent: Option<Id>)

  /** One row for each folder, in whatever order the store returns them. */
  ghost predicate IsSnapshot(rows: seq<Row>, table: Table) {
    && (forall row :: row in rows ==> row.id in table && table[row.id] == row.parent)
    && (forall id :: id in table ==> Row(id, table[id]) in rows)
  }

  method Snapshot(table: Table) returns (rows: seq<Row>)
    ensures IsSnapshot(rows, table)
  {
    rows := [];
    var rest := table.Keys;
    while rest != {}
      invariant rest <= table.Keys
      invariant forall row :: row in rows ==> row.id in table && table[row.id] == row.parent
      invariant forall id :: id in table && id !in rest ==> Row(id, table[id]) in rows
    {
      var id :| id in rest;
      rows := rows + [Row(id, table[id])];
      rest := rest - {id};
    }
  }

  // ------------------------------------------------------------------ what a forest is

  /** Climbing at most `n` parents from the folder ends at the library root. */
  ghost predicate RootedWithin(table: Table, id: Id, n: nat)
    decreases n
  {
    id in table && (table[id].None? || (n > 0 && RootedWithin(table, table[id].value, n - 1)))
  }

  ghost predicate Rooted(table: Table, id: Id) {
    exists n: nat :: RootedWithin(table, id, n)
  }

  /** Every parent exists and no folder is inside itself. */
  ghost predicate Forest(table: Table) {
    forall id :: id in table ==> Rooted(table, id)
  }

  /** Climbing exactly `k` parents from `id` arrives at `ancestor`. */
  ghost predicate Climbs(table: Table, id: Id, ancestor: Id, k: nat)
    decreases k
  {
    if k == 0 then id == ancestor
    else id in table && table[id].Some? && Climbs(table, table[id].value, ancestor, k - 1)
  }

  /** The folder is `ancestor` or somewhere inside it. */
  ghost predicate Inside(table: Table, id: Id, ancestor: Id) {
    exists k: nat :: Climbs(table, id, ancestor, k)
  }

  lemma ChildIsInside(table: Table, id: Id, ancestor: Id)
    requires id in table && table[id].Some? && Inside(table, table[id].value, ancestor)
    ensures Inside(table, id, ancestor)
  {
    var k: nat :| Climbs(table, table[id].value, ancestor, k);
    assert Climbs(table, id, ancestor, k + 1);
  }

  /** A set that holds the ancestor and with every folder its children holds everything inside. */
  lemma {:induction false} ClosedHoldsInside(table: Table, closed: set<Id>, ancestor: Id, id: Id, k: nat)
    requires ancestor in closed && Climbs(table, id, ancestor, k)
    requires forall child :: child in table && table[child].Some? && table[child].value in closed ==> child in closed
    ensures id in closed
    decreases k
  {
    if k > 0 {
      ClosedHoldsInside(table, closed, ancestor, table[id].value, k - 1);
    }
  }

  // ------------------------------------------------------------------ one move

  datatype FolderError = MissingFolder | MissingTarget | MissingAsset | IntoItself | IntoDescendant

  /** The folder and everything inside it, collected level by level. */
  method Descendants(rows: seq<Row>, folder: Id, ghost table: Table) returns (found: seq<Id>)
    requires IsSnapshot(rows, table) && folder in table
    ensures forall id :: id in found <==> Inside(table, id, folder)
  {
    found := [folder];
    assert Climbs(table, folder, folder, 0);
    var index := 0;
    while index < |found|
      invariant 0 <= index <= |found| && |found| > 0 && found[0] == folder
      invariant forall id :: id in found ==> id in table && Inside(table, id, folder)
      invariant forall i, row :: 0 <= i < index && row in rows && row.parent == Some(found[i]) ==> row.id in found
      decreases table.Keys - Members(found), |found| - index
    {
      ghost var before := found;
      var current := found[index];
      for r := 0 to |rows|
        invariant before <= found && |found| > index
        invariant forall id :: id in found ==> id in table && Inside(table, id, folder)
        invariant forall q :: 0 <= q < r && rows[q].parent == Some(current) ==> rows[q].id in found
        invariant found == before || Members(before) < Members(found) <= table.Keys
      {
        if rows[r].parent == Some(current) && rows[r].id !in found {
          assert rows[r] in rows && current in found;
          ChildIsInside(table, rows[r].id, folder);
          ghost var shorter := found;
          found := found + [rows[r].id];
          assert forall id :: id in found <==> id in shorter || id == rows[r].id;
          assert rows[r].id !in Members(before) && rows[r].id in Members(found);
        }
      }
      index := index + 1;
    }
    forall id | Inside(table, id, folder)
      ensures id in found
    {
      var k: nat :| Climbs(table, id, folder, k);
      forall child | child in table && table[child].Some? && table[child].value in Members(found)
        ensures child in Members(found)
      {
        assert Row(child, table[child]) in rows;
        var i :| 0 <= i < |found| && found[i] == table[child].value;
      }
      assert folder in Members(found);
      ClosedHoldsInside(table, Members(found), folder, id, k);
    }
  }

  ghost function Members(ids: seq<Id>): (members: set<Id>) {
    set id | id in ids
  }

  /** A folder may move to the root, and into any folder that is not inside it. */
  ghost predicate MayMove(table: Table, folder: Id, target: Option<Id>) {
    folder in table && (target.Some? ==> !Inside(table, target.value, folder))
  }

  lemma HasRow(rows: seq<Row>, table: Table, folder: Id)
    requires IsSnapshot(rows, table)
    ensures folder in table <==> exists q :: 0 <= q < |rows| && rows[q].id == folder
  {
    if folder in table {
      var q :| 0 <= q < |rows| && rows[q] == Row(folder, table[folder]);
    }
    if q :| 0 <= q < |rows| && rows[q].id == folder {
      assert rows[q] in rows;
    }
  }

  /** Why a folder may not move. */
  ghost predicate Refuses(table: Table, folder: Id, target: Option<Id>, error: FolderError) {
    match error
    case MissingFolder => folder !in table
    case IntoItself => folder in table && target == Some(folder)
    case IntoDescendant => folder in table && target.Some? && target.value != folder && Inside(table, target.value, folder)
    case _ => false
  }

  method ValidateFolderReparent(rows: seq<Row>, folder: Id, target: Option<Id>, ghost table: Table) returns (error: Option<FolderError>)
    requires IsSnapshot(rows, table)
    ensures error.None? <==> MayMove(table, folder, target)
    ensures error == Some(MissingFolder) <==> folder !in table
    ensures error == Some(IntoItself) <==> folder in table && target == Some(folder)
    ensures error == Some(IntoDescendant) <==> folder in table && target.Some? && target.value != folder && Inside(table, target.value, folder)
  {
    var exists_ := false;
    for r := 0 to |rows|
      invariant exists_ <==> exists q :: 0 <= q < r && rows[q].id == folder
    {
      if rows[r].id == folder {
        exists_ := true;
      }
    }
    HasRow(rows, table, folder);
    if !exists_ {
      return Some(MissingFolder);
    }
    if target.None? {
      return None;
    }
    if target.value == folder {
      assert Climbs(table, folder, folder, 0);
      assert Inside(table, folder, folder);
      return Some(IntoItself);
    }
    var found := Descendants(rows, folder, table);
    if target.value in found {
      return Some(IntoDescendant);
    }
    error := None;
  }

  // ------------------------------------------------------------------ a batch

  /** The table after all of `moved` got the target as parent. */
  function Reparented(table: Table, moved: set<Id>, target: Option<Id>): Table {
    map id | id in table :: if id in moved then target else table[id]
  }

  /** A climb that meets no moved folder is the same after the move. */
  lemma {:induction false} ClimbSurvives(table: Table, moved: set<Id>, target: Option<Id>, id: Id, n: nat)
    requires RootedWithin(table, id, n)
    requires forall folder :: folder in moved ==> !Inside(table, id, folder)
    ensures RootedWithin(Reparented(table, moved, target), id, n)
    decreases n
  {
    assert Climbs(table, id, id, 0);
    if table[id].Some? {
      forall folder | folder in moved
        ensures !Inside(table, table[id].value, folder)
      {
        if Inside(table, table[id].value, folder) {
          ChildIsInside(table, id, folder);
        }
      }
      ClimbSurvives(table, moved, target, table[id].value, n - 1);
    }
  }

  lemma {:induction false} StaysRooted(table: Table, moved: set<Id>, target: Option<Id>, id: Id, n: nat)
    requires RootedWithin(table, id, n)
    requires target.Some? ==> Rooted(Reparented(table, moved, target), target.value)
    ensures Rooted(Reparented(table, moved, target), id)
    decreases n
  {
    var after := Reparented(table, moved, target);
    if after[id].None? {
      assert RootedWithin(after, id, 0);
    } else {
      if id !in moved {
        StaysRooted(table, moved, target, table[id].value, n - 1);
      }
      var m: nat :| RootedWithin(after, after[id].value, m);
      assert RootedWithin(after, id, m + 1);
    }
  }

  /** Validating every folder of a batch against the table before the move is enough: the whole batch
      keeps the forest. */
  lemma BatchKeepsForest(table: Table, moved: set<Id>, target: Option<Id>)
    requires Forest(table) && (target.Some? ==> target.value in table)
    requires forall folder :: folder in moved ==> MayMove(table, folder, target)
    ensures Forest(Reparented(table, moved, target))
  {
    if target.Some? {
      var n: nat :| RootedWithin(table, target.value, n);
      ClimbSurvives(table, moved, target, target.value, n);
    }
    forall id | id in Reparented(table, moved, target)
      ensures Rooted(Reparented(table, moved, target), id)
    {
      var n: nat :| RootedWithin(table, id, n);
      StaysRooted(table, moved, target, id, n);
    }
  }

  // ------------------------------------------------------------------ deletion

  /** The requested folders and everything inside them. */
  ghost predicate IsClosure(table: Table, requested: set<Id>, removed: set<Id>) {
    forall id :: id in removed <==> InsideSome(table, requested, id)
  }

  ghost predicate InsideSome(table: Table, requested: set<Id>, id: Id) {
    exists folder :: folder in requested && Inside(table, id, folder)
  }

  /** All children of removed folders are removed. */
  ghost predicate Swept(rows: seq<Row>, removed: set<Id>) {
    forall row :: row in rows && row.parent.Some? && row.parent.value in removed ==> row.id in removed
  }

  lemma ChildIsInsideSome(table: Table, requested: set<Id>, id: Id)
    requires id in table && table[id].Some? && InsideSome(table, requested, table[id].value)
    ensures InsideSome(table, requested, id)
  {
    var folder :| folder in requested && Inside(table, table[id].value, folder);
    ChildIsInside(table, id, folder);
  }

  /** One pass over the table. */
  method Sweep(rows: seq<Row>, before: set<Id>, ghost requested: set<Id>, ghost table: Table) returns (removed: set<Id>, changed: bool)
    requires IsSnapshot(rows, table) && before <= table.Keys
    requires forall id :: id in before ==> InsideSome(table, requested, id)
    ensures before <= removed <= table.Keys && (changed <==> before != removed)
    ensures forall id :: id in removed ==> InsideSome(table, requested, id)
    ensures !changed ==> Swept(rows, removed)
  {
    hide InsideSome;
    removed, changed := before, false;
    for r := 0 to |rows|
      invariant before <= removed <= table.Keys && (changed <==> before != removed)
      invariant forall id :: id in removed ==> InsideSome(table, requested, id)
      invariant !changed ==> Swept(rows[..r], removed)
    {
      assert rows[..r + 1] == rows[..r] + [rows[r]] && rows[r] in rows;
      if rows[r].parent.Some? && rows[r].parent.value in removed && rows[r].id !in removed {
        ChildIsInsideSome(table, requested, rows[r].id);
        removed := removed + {rows[r].id};
        changed := true;
      }
    }
    assert rows[..|rows|] == rows;
  }

  /** Sweep the table until nothing changes. */
  method RemovalClosure(rows: seq<Row>, requested: set<Id>, ghost table: Table) returns (removed: set<Id>)
    requires IsSnapshot(rows, table) && requested <= table.Keys
    ensures IsClosure(table, requested, removed) && removed <= table.Keys
  {
    removed := requested;
    forall id | id in removed
      ensures InsideSome(table, requested, id)
    {
      assert Climbs(table, id, id, 0);
      assert Inside(table, id, id);
    }
    var changed := true;
    while changed
      invariant requested <= removed <= table.Keys
      invariant forall id :: id in removed ==> InsideSome(table, requested, id)
      invariant !changed ==> Swept(rows, removed)
      decreases table.Keys - removed, changed
    {
      ghost var before := removed;
      removed, changed := Sweep(rows, removed, requested, table);
      assert changed ==> table.Keys - removed < table.Keys - before;
    }
    ClosureComplete(rows, table, requested, removed);
  }

  lemma ClosureComplete(rows: seq<Row>, table: Table, requested: set<Id>, removed: set<Id>)
    requires IsSnapshot(rows, table) && requested <= removed && Swept(rows, removed)
    ensures forall id :: InsideSome(table, requested, id) ==> id in removed
  {
    forall id | InsideSome(table, requested, id)
      ensures id in removed
    {
      var folder :| folder in requested && Inside(table, id, folder);
      var k: nat :| Climbs(table, id, folder, k);
      forall child | child in table && table[child].Some? && table[child].value in removed
        ensures child in removed
      {
        assert Row(child, table[child]) in rows;
      }
      ClosedHoldsInside(table, removed, folder, id, k);
    }
  }

  function Without(table: Table, removed: set<Id>): Table {
    map id | id in table && id !in removed :: table[id]
  }

  lemma {:induction false} RootedWithout(table: Table, requested: set<Id>, removed: set<Id>, id: Id, n: nat)
    requires IsClosure(table, requested, removed) && RootedWithin(table, id, n) && id !in removed
    ensures RootedWithin(Without(table, removed), id, n)
    decreases n
  {
    if table[id].Some? {
      if table[id].value in removed {
        ChildIsInsideSome(table, requested, id);
      }
      RootedWithout(table, requested, removed, table[id].value, n - 1);
    }
  }

  /** What is left after removing a closure is a forest of which no folder points at a removed one. */
  lemma RemovalKeepsForest(table: Table, requested: set<Id>, removed: set<Id>)
    requires Forest(table) && IsClosure(table, requested, removed)
    ensures Forest(Without(table, removed))
    ensures forall id :: id in Without(table, removed) && table[id].Some? ==> table[id].value !in removed
  {
    forall id | id in Without(table, removed)
      ensures Rooted(Without(table, removed), id)
      ensures table[id].Some? ==> table[id].value !in removed
    {
      var n: nat :| RootedWithin(table, id, n);
      RootedWithout(table, requested, removed, id, n);
    }
  }

  // ------------------------------------------------------------------ the library

  datatype Asset = Asset(folder: Option<Id>, retired: bool)

  /** Every record exists and is not retired. */
  ghost predicate AllVisible(assets: map<nat, Asset>, ids: set<nat>) {
    forall id :: id in ids ==> id in assets && !assets[id].retired
  }

  ghost predicate AllMayMove(table: Table, ids: set<Id>, target: Option<Id>) {
    forall folder :: folder in ids ==> MayMove(table, folder, target)
  }

  ghost predicate SomeRefuses(table: Table, ids: set<Id>, target: Option<Id>, error: FolderError) {
    exists folder :: folder in ids && Refuses(table, folder, target, error)
  }

  /** The requested folders have the target as parent, all others keep theirs, and those that had another one count. */
  ghost predicate FoldersFiled(before: Table, after: Table, ids: set<Id>, target: Option<Id>, count: nat) {
    && after.Keys == before.Keys
    && (forall id :: id in after ==> after[id] == if id in ids then target else before[id])
    && count == |set id | id in ids && id in before && before[id] != target|
  }

  /** The requested assets lie in the target, all others where they were, and those that lay elsewhere count. */
  ghost predicate AssetsFiled(before: map<nat, Asset>, after: map<nat, Asset>, ids: set<nat>, target: Option<Id>, count: nat) {
    && after.Keys == before.Keys
    && (forall id :: id in after ==> after[id].folder == if id in ids then target else before[id].folder)
    && (forall id :: id in after ==> after[id].retired == before[id].retired)
    && count == |set id | id in ids && id in before && before[id].folder != target|
  }

  /** Exactly the folders inside a requested one are gone, and they count. */
  ghost predicate FoldersRemoved(before: Table, after: Table, ids: set<Id>, count: nat) {
    && (forall id :: id in after <==> id in before && !InsideSome(before, ids, id))
    && (forall id :: id in after ==> after[id] == before[id])
    && count == |before.Keys - after.Keys|
  }

  /** An asset is retired exactly if it was requested or retired before, and lies where it lay unless that folder is gone. */
  ghost predicate AssetsRetired(table: Table, before: map<nat, Asset>, after: map<nat, Asset>, ids: set<nat>, folderIds: set<Id>) {
    && after.Keys == before.Keys
    && (forall id :: id in after ==> (after[id].retired <==> id in ids || before[id].retired))
    && (forall id :: id in after && before[id].folder.Some? && InsideSome(table, folderIds, before[id].folder.value) ==> after[id].folder == None)
    && (forall id :: id in after && (before[id].folder.Some? ==> !InsideSome(table, folderIds, before[id].folder.value)) ==> after[id].folder == before[id].folder)
  }

  class AssetLibrary {
    var folders: Table
    var assets: map<nat, Asset>

    /** Folders form a forest and every asset lies in an existing folder or at the root. */
    ghost predicate Valid()
      reads this
    {
      && Forest(folders)
      && forall id :: id in assets && assets[id].folder.Some? ==> assets[id].folder.value in folders
    }

    constructor ()
      ensures Valid() && folders == map[] && assets == map[]
    {
      folders, assets := map[], map[];
    }

    /** Look up every record before any of them changes. */
    method CheckVisible(ids: set<nat>) returns (visible: bool)
      ensures visible <==> AllVisible(assets, ids)
    {
      var rest := ids;
      while rest != {}
        invariant rest <= ids
        invariant forall id :: id in ids && id !in rest ==> id in assets && !assets[id].retired
      {
        var id :| id in rest;
        if id !in assets || assets[id].retired {
          return false;
        }
        rest := rest - {id};
      }
      visible := true;
    }

    /** Check every folder against the one table before the move. */
    method ValidateFolders(rows: seq<Row>, folderIds: set<Id>, target: Option<Id>) returns (error: Option<FolderError>)
      requires IsSnapshot(rows, folders)
      ensures error.None? <==> AllMayMove(folders, folderIds, target)
      ensures error.Some? ==> SomeRefuses(folders, folderIds, target, error.value)
    {
      error := None;
      var rest := folderIds;
      while rest != {}
        invariant rest <= folderIds && error.None?
        invariant forall folder :: folder in folderIds && folder !in rest ==> MayMove(folders, folder, target)
      {
        var folder :| folder in rest;
        error := ValidateFolderReparent(rows, folder, target, folders);
        if error.Some? {
          return;
        }
        rest := rest - {folder};
      }
    }

    /** Move assets and folders into one folder or to the root. Either everything moves or nothing changes, and
        the forest survives although each folder was checked only against the table before the move. */
    method MoveAssetsAndFolders(assetIds: set<nat>, folderIds: set<Id>, target: Option<Id>)
      returns (error: Option<FolderError>, moved: (nat, nat))
      requires Valid()
      modifies this
      ensures Valid()
      ensures error.None? <==>
                || (assetIds == {} && folderIds == {})
                || (&& (target.Some? ==> target.value in old(folders))
                    && AllVisible(old(assets), assetIds)
                    && AllMayMove(old(folders), folderIds, target))
      ensures error.Some? ==> folders == old(folders) && assets == old(assets) && moved == (0, 0)
      ensures error.Some? && target.Some? && target.value !in old(folders) ==> error.value == MissingTarget
      ensures error.Some? && (target.Some? ==> target.value in old(folders)) ==>
                if AllVisible(old(assets), assetIds) then SomeRefuses(old(folders), folderIds, target, error.value) else error.value == MissingAsset
      ensures error.None? ==>
                && FoldersFiled(old(folders), folders, folderIds, target, moved.1)
                && AssetsFiled(old(assets), assets, assetIds, target, moved.0)
    {
      hide AllVisible, AllMayMove, SomeRefuses, FoldersFiled, AssetsFiled, Forest, Reparented, Refiled, ElsewhereAssets, ElsewhereFolders, IsSnapshot;
      moved := (0, 0);
      error := None;
      if assetIds == {} && folderIds == {} {
        NothingFiled(folders, assets, target);
        return;
      }
      var rows := Snapshot(folders);
      if target.Some? && target.value !in folders {
        return Some(MissingTarget), moved;
      }
      var visible := CheckVisible(assetIds);
      if !visible {
        return Some(MissingAsset), moved;
      }
      error := ValidateFolders(rows, folderIds, target);
      if error.Some? {
        return;
      }
      var assetsToMove := ElsewhereAssets(assets, assetIds, target);
      var foldersToMove := ElsewhereFolders(folders, folderIds, target);
      FilesAll(folders, assets, assetIds, folderIds, target);
      assets := Refiled(assets, assetsToMove, target);
      folders := Reparented(folders, foldersToMove, target);
      moved := (|assetsToMove|, |foldersToMove|);
    }

    /** Retire assets and delete folders with everything inside them. Assets inside them move to the root;
        nothing is left pointing at a removed folder, and a refused request changes nothing. */
    method RetireAssetsAndDeleteFolders(assetIds: set<nat>, folderIds: set<Id>)
      returns (error: Option<FolderError>, removed: (nat, nat))
      requires Valid()
      modifies this
      ensures Valid()
      ensures error.None? <==> AllVisible(old(assets), assetIds) && folderIds <= old(folders).Keys
      ensures error.Some? ==> folders == old(folders) && assets == old(assets) && removed == (0, 0)
      ensures error.Some? ==> error.value == if AllVisible(old(assets), assetIds) then MissingFolder else MissingAsset
      ensures error.None? ==> removed.0 == |assetIds| && FoldersRemoved(old(folders), folders, folderIds, removed.1)
      ensures error.None? ==> AssetsRetired(old(folders), old(assets), assets, assetIds, folderIds)
    {
      hide AllVisible, FoldersRemoved, AssetsRetired, IsClosure, InsideSome, Forest, Without, Emptied, IsSnapshot;
      removed := (0, 0);
      error := None;
      if assetIds == {} && folderIds == {} {
        NothingRemoved(folders, assets);
        return;
      }
      var visible := CheckVisible(assetIds);
      if !visible {
        return Some(MissingAsset), removed;
      }
      var rows := Snapshot(folders);
      if !(folderIds <= folders.Keys) {
        return Some(MissingFolder), removed;
      }
      var closure := RemovalClosure(rows, folderIds, folders);
      RemovalKeepsForest(folders, folderIds, closure);
      RemovesAll(folders, assets, assetIds, folderIds, closure);
      removed := (|assetIds|, |closure|);
      assets := Emptied(assets, assetIds, closure);
      folders := Without(folders, closure);
    }
  }

  /** Records that are not already at the destination; only they count as moved. */
  function ElsewhereAssets(assets: map<nat, Asset>, ids: set<nat>, target: Option<Id>): set<nat> {
    set id | id in ids && id in assets && assets[id].folder != target
  }

  function ElsewhereFolders(folders: Table, ids: set<Id>, target: Option<Id>): set<Id> {
    set id | id in ids && id in folders && folders[id] != target
  }

  /** Assets after all of `moved` were filed in the target. */
  function Refiled(assets: map<nat, Asset>, moved: set<nat>, target: Option<Id>): map<nat, Asset> {
    map id | id in assets :: if id in moved then assets[id].(folder := target) else assets[id]
  }

  /** Assets after their removed folders vanished and the requested ones retired. */
  function Emptied(assets: map<nat, Asset>, retired: set<nat>, removed: set<Id>): map<nat, Asset> {
    map id | id in assets :: AfterRemoval(assets[id], id in retired, removed)
  }

  function AfterRemoval(asset: Asset, retire: bool, removed: set<Id>): Asset {
    Asset(if asset.folder.Some? && asset.folder.value in removed then None else asset.folder, asset.retired || retire)
  }

  // ------------------------------------------------------------------ what the updates do

  lemma NothingFiled(table: Table, assets: map<nat, Asset>, target: Option<Id>)
    ensures FoldersFiled(table, table, {}, target, 0) && AssetsFiled(assets, assets, {}, target, 0)
  {}

  lemma FilesAll(table: Table, assets: map<nat, Asset>, assetIds: set<nat>, folderIds: set<Id>, target: Option<Id>)
    requires Forest(table) && AllMayMove(table, folderIds, target)
    requires forall id :: id in assets && assets[id].folder.Some? ==> assets[id].folder.value in table
    requires target.Some? ==> target.value in table
    ensures var foldersToMove, assetsToMove := ElsewhereFolders(table, folderIds, target), ElsewhereAssets(assets, assetIds, target);
            var folders, filed := Reparented(table, foldersToMove, target), Refiled(assets, assetsToMove, target);
            && FoldersFiled(table, folders, folderIds, target, |foldersToMove|)
            && AssetsFiled(assets, filed, assetIds, target, |assetsToMove|)
            && Forest(folders)
            && (forall id :: id in filed && filed[id].folder.Some? ==> filed[id].folder.value in folders)
  {
    hide Forest, MayMove, FoldersFiled, AssetsFiled;
    FilesFolders(table, folderIds, target);
    FilesAssets(assets, assetIds, target);
    BatchKeepsForest(table, ElsewhereFolders(table, folderIds, target), target);
  }

  lemma FilesFolders(table: Table, ids: set<Id>, target: Option<Id>)
    ensures var moved := ElsewhereFolders(table, ids, target);
            FoldersFiled(table, Reparented(table, moved, target), ids, target, |moved|)
  {
    assert ElsewhereFolders(table, ids, target) == set id | id in ids && id in table && table[id] != target;
  }

  lemma FilesAssets(assets: map<nat, Asset>, ids: set<nat>, target: Option<Id>)
    ensures var moved := ElsewhereAssets(assets, ids, target);
            AssetsFiled(assets, Refiled(assets, moved, target), ids, target, |moved|)
  {
    assert ElsewhereAssets(assets, ids, target) == set id | id in ids && id in assets && assets[id].folder != target;
  }

  lemma NothingRemoved(table: Table, assets: map<nat, Asset>)
    ensures AllVisible(assets, {}) && FoldersRemoved(table, table, {}, 0) && AssetsRetired(table, assets, assets, {}, {})
  {
    assert table.Keys - table.Keys == {};
  }

  lemma RemovesAll(table: Table, assets: map<nat, Asset>, assetIds: set<nat>, folderIds: set<Id>, closure: set<Id>)
    requires IsClosure(table, folderIds, closure) && closure <= table.Keys
    requires forall id :: id in assets && assets[id].folder.Some? ==> assets[id].folder.value in table
    ensures var folders, emptied := Without(table, closure), Emptied(assets, assetIds, closure);
            && FoldersRemoved(table, folders, folderIds, |closure|)
            && AssetsRetired(table, assets, emptied, assetIds, folderIds)
            && (forall id :: id in emptied && emptied[id].folder.Some? ==> emptied[id].folder.value in folders)
  {
    hide IsClosure, InsideSome, FoldersRemoved, AssetsRetired;
    RemovesFolders(table, folderIds, closure);
    RetiresAssets(table, assets, assetIds, folderIds, closure);
  }

  lemma RemovesFolders(table: Table, folderIds: set<Id>, closure: set<Id>)
    requires IsClosure(table, folderIds, closure) && closure <= table.Keys
    ensures FoldersRemoved(table, Without(table, closure), folderIds, |closure|)
  {
    hide InsideSome;
    assert table.Keys - Without(table, closure).Keys == closure;
  }

  lemma RetiresAssets(table: Table, assets: map<nat, Asset>, assetIds: set<nat>, folderIds: set<Id>, closure: set<Id>)
    requires IsClosure(table, folderIds, closure)
    ensures AssetsRetired(table, assets, Emptied(assets, assetIds, closure), assetIds, folderIds)
  {
    hide InsideSome;
  }
}
