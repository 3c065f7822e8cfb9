/** The save-slot file logic of the engine's savegame manager.

    The user-data directory is an abstract store: for every slot index that has
    a folder, a map from a path relative to that folder to the file's contents.
    A file that is absent and a file that is empty both have size zero, which
    is all the manager ever asks about. The global engine pointer and the
    user-data location become an explicit environment. */
module SavegameManager {
  import opened Util

  datatype GameType = Gothic1 | Gothic2

  /** The JSON document of the info file: every key may be absent. */
  datatype InfoDoc = InfoDoc(version: Option<nat>, name: Option<string>, world: Option<string>, timePlayed: Option<int>)

  /** SavegameInfo: the metadata record of one slot. */
  datatype SavegameInfo = SavegameInfo(version: nat, name: string, world: string, timePlayed: int)

  /** Why reading the info file raised an exception. */
  datatype InfoError = NotJson | MissingField(key: string)

  /** What the manager takes from outside: the game type of the running engine,
      the user-data root, the constants of the header, and the JSON library. */
  datatype Env = Env(
    game: GameType,
    userData: string,
    g1MaxSlots: nat,
    g2MaxSlots: nat,
    latestVersion: nat,
    defaultInfo: SavegameInfo,
    dump: InfoDoc -> string,
    parse: string -> Option<InfoDoc>)

  type Slot = map<string, string>
  type Store = map<int, Slot>

  const INFO_FILE := "regoth_save.json"
  const PLAYER := "player"
  const SCRIPT_ENGINE_FILE := "scriptengine.json"
  const DIALOG_MANAGER_FILE := "dialogmanager.json"

  // ---------------------------------------------------------------------------
  // Game type, paths and file names

  function MaxSlots(env: Env): (n: nat)
    ensures env.game == Gothic1 ==> n == env.g1MaxSlots
    ensures env.game != Gothic1 ==> n == env.g2MaxSlots
  {
    match env.game
    case Gothic1 => env.g1MaxSlots
    case Gothic2 => env.g2MaxSlots
  }

  function GameSpecificSubFolderName(env: Env): (name: string)
    ensures env.game == Gothic1 ==> name == "Gothic"
    ensures env.game != Gothic1 ==> name == "Gothic 2"
  {
    if env.game == Gothic1 then "Gothic" else "Gothic 2"
  }

  function SavegameFolderPrefix(env: Env): string {
    env.userData + "/" + GameSpecificSubFolderName(env) + "/savegame_"
  }

  /** The slot folder: one path component "savegame_<idx>" inside the game folder. */
  function BuildSavegamePath(env: Env, idx: int): (p: string)
    ensures StartsWith(p, env.userData + "/" + GameSpecificSubFolderName(env) + "/")
    ensures var folderName := p[|env.userData + "/" + GameSpecificSubFolderName(env) + "/"|..];
              StartsWith(folderName, "savegame_") && '/' !in folderName
  {
    var gameFolder := env.userData + "/" + GameSpecificSubFolderName(env) + "/";
    var folderName := "savegame_" + IntToString(idx);
    assert (gameFolder + folderName)[..|gameFolder|] == gameFolder;
    assert (gameFolder + folderName)[|gameFolder|..] == folderName;
    assert folderName[..9] == "savegame_";
    gameFolder + folderName
  }

  /** The full path readFileInSlot and writeFileInSlot address. */
  function SlotFilePath(env: Env, idx: int, relativePath: string): string {
    BuildSavegamePath(env, idx) + "/" + relativePath
  }

  function BuildWorldPath(env: Env, idx: int, worldName: string): (p: string)
    ensures StartsWith(p, BuildSavegamePath(env, idx) + "/world_")
    ensures EndsWith(p, ".json")
  {
    BuildSavegamePath(env, idx) + "/world_" + worldName + ".json"
  }

  function WorldFileName(worldName: string): string {
    "world_" + worldName + ".json"
  }

  function PlayerFileName(playerName: string): string {
    playerName + ".json"
  }

  /** The prefixes of the files clearSavegame may truncate. */
  const REGOTH_PREFIXES := ["regoth_", "world_", "player", "dialogmanager", "scriptengine"]

  predicate StartsWithAny(s: string, prefixes: seq<string>) {
    |prefixes| > 0 && (StartsWith(s, prefixes[0]) || StartsWithAny(s, prefixes[1..]))
  }

  /** The allowlist of clearSavegame: files that belong to the engine. */
  predicate IsRegothFile(name: string): (b: bool)
    ensures b <==> EndsWith(name, ".json") && StartsWithAny(name, REGOTH_PREFIXES)
  {
    var r1 := REGOTH_PREFIXES[1..];
    var r2 := r1[1..];
    var r3 := r2[1..];
    var r4 := r3[1..];
    assert r1 == ["world_", "player", "dialogmanager", "scriptengine"] && r4 == ["scriptengine"];
    assert StartsWithAny(name, REGOTH_PREFIXES) <==> StartsWith(name, "regoth_") || StartsWithAny(name, r1);
    assert StartsWithAny(name, r1) <==> StartsWith(name, "world_") || StartsWithAny(name, r2);
    assert StartsWithAny(name, r2) <==> StartsWith(name, "player") || StartsWithAny(name, r3);
    assert StartsWithAny(name, r3) <==> StartsWith(name, "dialogmanager") || StartsWithAny(name, r4);
    assert StartsWithAny(name, r4) <==> StartsWith(name, "scriptengine");
    EndsWith(name, ".json") &&
    (StartsWith(name, "regoth_")
     || StartsWith(name, "world_")
     || StartsWith(name, "player")
     || StartsWith(name, "dialogmanager")
     || StartsWith(name, "scriptengine"))
  }

  /** A file directly inside the slot folder, which a non-recursive listing visits. */
  predicate InSlotFolder(relativePath: string) {
    '/' !in relativePath
  }

  // ---------------------------------------------------------------------------
  // Reading the store

  /** The bytes the OS reports for a file; absent and empty are alike. */
  function FileData(store: Store, idx: int, relativePath: string): string {
    if idx in store && relativePath in store[idx] then store[idx][relativePath] else ""
  }

  predicate IsSavegameAvailable(store: Store, idx: int): (b: bool)
    ensures b <==> idx in store && INFO_FILE in store[idx] && store[idx][INFO_FILE] != ""
  {
    |FileData(store, idx, INFO_FILE)| > 0
  }

  function ReadFileInSlot(store: Store, idx: int, relativePath: string): (r: string)
    ensures r == "" <==> idx !in store || relativePath !in store[idx] || store[idx][relativePath] == ""
    ensures r != "" ==> r == store[idx][relativePath]
  {
    var data := FileData(store, idx, relativePath);
    if |data| == 0 then "" else data
  }

  function ReadWorld(store: Store, idx: int, worldName: string): (r: string)
    ensures r != "" <==> idx in store && WorldFileName(worldName) in store[idx] && store[idx][WorldFileName(worldName)] != ""
    ensures r != "" ==> r == store[idx][WorldFileName(worldName)]
  {
    ReadFileInSlot(store, idx, WorldFileName(worldName))
  }

  function ReadPlayer(store: Store, idx: int, playerName: string): (r: string)
    ensures r != "" <==> idx in store && PlayerFileName(playerName) in store[idx] && store[idx][PlayerFileName(playerName)] != ""
    ensures r != "" ==> r == store[idx][PlayerFileName(playerName)]
  {
    ReadFileInSlot(store, idx, PlayerFileName(playerName))
  }

  /** The document writeSavegameInfo serialises: the version is always the latest. */
  function EncodeInfo(env: Env, info: SavegameInfo): (doc: InfoDoc)
    ensures doc.version == Some(env.latestVersion)
  {
    InfoDoc(Some(env.latestVersion), Some(info.name), Some(info.world), Some(info.timePlayed))
  }

  /** The field reads of readSavegameInfo: a missing version means version 0,
      a missing name, world or timePlayed makes the conversion throw. */
  function DecodeInfo(doc: InfoDoc): (r: Result<SavegameInfo, InfoError>)
    ensures r.Ok? <==> doc.name.Some? && doc.world.Some? && doc.timePlayed.Some?
    ensures r.Ok? ==> r.value.version == (if doc.version.Some? then doc.version.value else 0)
    ensures r.Ok? ==> Some(r.value.name) == doc.name && Some(r.value.world) == doc.world
    ensures r.Ok? ==> Some(r.value.timePlayed) == doc.timePlayed
  {
    if doc.name.None? then Err(MissingField("name"))
    else if doc.world.None? then Err(MissingField("world"))
    else if doc.timePlayed.None? then Err(MissingField("timePlayed"))
    else Ok(SavegameInfo(doc.version.GetOr(0), doc.name.value, doc.world.value, doc.timePlayed.value))
  }

  function ReadSavegameInfo(env: Env, store: Store, idx: int): (r: Result<SavegameInfo, InfoError>)
    ensures !IsSavegameAvailable(store, idx) ==> r == Ok(env.defaultInfo)
    ensures IsSavegameAvailable(store, idx) && env.parse(FileData(store, idx, INFO_FILE)).None? ==> r == Err(NotJson)
    ensures IsSavegameAvailable(store, idx) && env.parse(FileData(store, idx, INFO_FILE)).Some? ==>
              r == DecodeInfo(env.parse(FileData(store, idx, INFO_FILE)).value)
  {
    var contents := FileData(store, idx, INFO_FILE);
    if |contents| == 0 then Ok(env.defaultInfo)
    else match env.parse(contents)
      case None => Err(NotJson)
      case Some(doc) => DecodeInfo(doc)
  }

  /** The JSON library reads back what it wrote, and never writes an empty document. */
  ghost predicate DumpRoundTrips(env: Env, doc: InfoDoc) {
    env.parse(env.dump(doc)) == Some(doc) && |env.dump(doc)| > 0
  }

  // ---------------------------------------------------------------------------
  // Changes to the store

  /** ensureSavegameFolders: the slot folder exists afterwards. */
  function WithSlotFolder(store: Store, idx: int): (r: Store)
    ensures idx in r && r.Keys == store.Keys + {idx}
    ensures forall i :: i in store ==> r[i] == store[i]
  {
    if idx in store then store else store[idx := map[]]
  }

  /** The store after a successful write of data to one file of one slot. */
  function Written(store: Store, idx: int, relativePath: string, data: string): Store {
    var folder := WithSlotFolder(store, idx);
    folder[idx := folder[idx][relativePath := data]]
  }

  /** One slot after clearSavegame's listing pass: every REGoth file directly in
      the folder that could be opened is truncated to empty. */
  function ClearedSlot(slot: Slot, unwritable: set<string>): (r: Slot)
    ensures r.Keys == slot.Keys
    ensures forall name :: name in slot ==> r[name] == "" || r[name] == slot[name]
    ensures forall name :: name in unwritable && name in slot ==> r[name] == slot[name]
  {
    map name | name in slot ::
      if InSlotFolder(name) && IsRegothFile(name) && name !in unwritable then "" else slot[name]
  }

  /** The store after clearSavegame(idx). */
  function Cleared(store: Store, idx: int, unwritable: set<string>): (r: Store)
    ensures r.Keys == store.Keys
    ensures forall i :: i in store && i != idx ==> r[i] == store[i]
    ensures !IsSavegameAvailable(store, idx) ==> r == store
    ensures IsSavegameAvailable(store, idx) ==> r[idx] == ClearedSlot(store[idx], unwritable)
  {
    if IsSavegameAvailable(store, idx) then store[idx := ClearedSlot(store[idx], unwritable)] else store
  }

  // ---------------------------------------------------------------------------
  // loadSaveGameSlot, up to the point where the session is rebuilt

  datatype LoadOutcome =
    | Failed(message: string)          // the message string loadSaveGameSlot returns
    | InfoUnreadable(error: InfoError) // readSavegameInfo threw
    | Loading(info: SavegameInfo, worldData: string)

  function NotAvailableMessage(index: int): string {
    "Savegame at slot " + IntToString(index) + " not available!"
  }

  function WorldInvalidMessage(env: Env, index: int, worldName: string): string {
    "Target world-file invalid: " + BuildWorldPath(env, index, worldName)
  }

  function LoadSaveGameSlot(env: Env, store: Store, index: int): (r: LoadOutcome)
    requires 0 <= index < MaxSlots(env)
    ensures r == Failed(NotAvailableMessage(index)) <==> !IsSavegameAvailable(store, index)
    ensures r.InfoUnreadable? <==> IsSavegameAvailable(store, index) && ReadSavegameInfo(env, store, index).Err?
    ensures r.InfoUnreadable? ==> r.error == ReadSavegameInfo(env, store, index).error
    ensures IsSavegameAvailable(store, index) && ReadSavegameInfo(env, store, index).Ok? ==>
              var info := ReadSavegameInfo(env, store, index).value;
              r == (if ReadWorld(store, index, info.world) == "" then Failed(WorldInvalidMessage(env, index, info.world))
                    else Loading(info, ReadWorld(store, index, info.world)))
  {
    if !IsSavegameAvailable(store, index) then Failed(NotAvailableMessage(index))
    else match ReadSavegameInfo(env, store, index)
      case Err(e) => InfoUnreadable(e)
      case Ok(info) =>
        var worldFileData := ReadWorld(store, index, info.world);
        if worldFileData == "" then Failed(WorldInvalidMessage(env, index, info.world))
        else Loading(info, worldFileData)
  }

  /** clearSavegame's listing pass part-way: the files still listed are
      untouched, the others are as the finished pass leaves them. */
  predicate PartlyCleared(cur: Slot, before: Slot, unwritable: set<string>, listing: set<string>) {
    cur.Keys == before.Keys && listing <= before.Keys &&
    (forall name :: name in listing ==> InSlotFolder(name)) &&
    forall name :: name in before ==>
      cur[name] == if name in listing then before[name] else ClearedSlot(before, unwritable)[name]
  }

  /** Replacing a slot of a store whose slot was already replaced. */
  lemma ReplaceSlotTwice(store: Store, cur: Store, idx: int, slot: Slot)
    requires idx in cur && cur == store[idx := cur[idx]]
    ensures cur[idx := slot] == store[idx := slot]
  {
  }

  /** Before the pass, every file directly in the folder is still listed. */
  lemma ClearStart(before: Slot, unwritable: set<string>)
    ensures PartlyCleared(before, before, unwritable, set name | name in before && InSlotFolder(name))
  {
  }

  /** Once the listing is used up, the folder is the cleared one. */
  lemma ClearEnd(cur: Slot, before: Slot, unwritable: set<string>)
    requires PartlyCleared(cur, before, unwritable, {})
    ensures cur == ClearedSlot(before, unwritable)
  {
  }

  /** One file of the listing handled: it is truncated exactly when the pass
      would truncate it. */
  lemma ClearStep(cur: Slot, before: Slot, unwritable: set<string>, listing: set<string>, name: string)
    requires PartlyCleared(cur, before, unwritable, listing) && name in listing
    ensures PartlyCleared(if IsRegothFile(name) && name !in unwritable then cur[name := ""] else cur,
                          before, unwritable, listing - {name})
  {
  }

  // ---------------------------------------------------------------------------
  // The file system, as the manager changes it

  class SaveDirectory {
    var slots: Store

    constructor (slots: Store)
      ensures this.slots == slots
    {
      this.slots := slots;
    }

    /** writeFileInSlot: the folder is ensured, then the file is replaced by data
        if the OS lets the manager open it. */
    method WriteFileInSlot(idx: int, relativePath: string, data: string, canOpen: bool) returns (ok: bool)
      modifies this
      ensures ok == canOpen
      ensures slots == if ok then Written(old(slots), idx, relativePath, data) else WithSlotFolder(old(slots), idx)
    {
      slots := WithSlotFolder(slots, idx);
      if !canOpen {
        return false;
      }
      slots := slots[idx := slots[idx][relativePath := data]];
      return true;
    }

    /** writeWorld: data is the already serialised world document. */
    method WriteWorld(idx: int, worldName: string, data: string, canOpen: bool) returns (ok: bool)
      modifies this
      ensures ok == canOpen
      ensures slots == if ok then Written(old(slots), idx, WorldFileName(worldName), data) else WithSlotFolder(old(slots), idx)
    {
      ok := WriteFileInSlot(idx, WorldFileName(worldName), data, canOpen);
    }

    /** writePlayer: data is the already serialised player document. */
    method WritePlayer(idx: int, playerName: string, data: string, canOpen: bool) returns (ok: bool)
      modifies this
      ensures ok == canOpen
      ensures slots == if ok then Written(old(slots), idx, PlayerFileName(playerName), data) else WithSlotFolder(old(slots), idx)
    {
      ok := WriteFileInSlot(idx, PlayerFileName(playerName), data, canOpen);
    }

    /** writeSavegameInfo: the info file holds the record, stamped with the latest version. */
    method WriteSavegameInfo(env: Env, idx: int, info: SavegameInfo, canOpen: bool) returns (ok: bool)
      modifies this
      ensures ok == canOpen
      ensures slots == if ok then Written(old(slots), idx, INFO_FILE, env.dump(EncodeInfo(env, info)))
                       else WithSlotFolder(old(slots), idx)
    {
      var doc := EncodeInfo(env, info);
      slots := WithSlotFolder(slots, idx);
      if !canOpen {
        return false;
      }
      slots := slots[idx := slots[idx][INFO_FILE := env.dump(doc)]];
      return true;
    }

    /** clearSavegame: nothing is touched unless the slot is in use; then a
        non-recursive listing of the slot folder truncates every REGoth file
        that can be opened for writing (the others are skipped with a warning). */
    method ClearSavegame(idx: int, unwritable: set<string>)
      modifies this
      ensures slots == Cleared(old(slots), idx, unwritable)
    {
      if !IsSavegameAvailable(slots, idx) {
        return;
      }
      ghost var before := slots[idx];
      var listing := set name | name in slots[idx] && InSlotFolder(name);
      ClearStart(before, unwritable);
      while listing != {}
        invariant idx in slots && slots == old(slots)[idx := slots[idx]]
        invariant PartlyCleared(slots[idx], before, unwritable, listing)
        decreases listing
      {
        var name :| name in listing;
        ClearStep(slots[idx], before, unwritable, listing, name);
        if IsRegothFile(name) && name !in unwritable {
          ReplaceSlotTwice(old(slots), slots, idx, slots[idx][name := ""]);
          slots := slots[idx := slots[idx][name := ""]];
        }
        listing := listing - {name};
      }
      ClearEnd(slots[idx], before, unwritable);
    }

    /** getSavegameWorlds as written: the callback tests the size of
        path + "/" + name, and path is the listed file itself, so the file
        tested is one named like the listed file inside a folder of that name. */
    method GetSavegameWorldsAsWritten(idx: int) returns (worlds: seq<string>)
      ensures forall name :: name in worlds <==>
                idx in slots && name in slots[idx] && InSlotFolder(name) && FileData(slots, idx, name + "/" + name) != ""
      ensures forall i, j :: 0 <= i < j < |worlds| ==> worlds[i] != worlds[j]
    {
      worlds := [];
      if idx !in slots {
        return;
      }
      var folder := slots[idx];
      var listing := set name | name in folder && InSlotFolder(name);
      while listing != {}
        invariant listing <= folder.Keys
        invariant forall name :: name in worlds <==>
                    name in folder && InSlotFolder(name) && name !in listing && FileData(slots, idx, name + "/" + name) != ""
        invariant forall i, j :: 0 <= i < j < |worlds| ==> worlds[i] != worlds[j]
        decreases listing
      {
        var name :| name in listing;
        if FileData(slots, idx, name + "/" + name) != "" {
          worlds := worlds + [name];
        }
        listing := listing - {name};
      }
    }

    /** getSavegameWorlds as intended: the names of the non-empty files
        directly in the slot folder, each once, in listing order. */
    method GetSavegameWorlds(idx: int) returns (worlds: seq<string>)
      ensures forall name :: name in worlds <==> InSlotFolder(name) && FileData(slots, idx, name) != ""
      ensures forall i, j :: 0 <= i < j < |worlds| ==> worlds[i] != worlds[j]
    {
      worlds := [];
      if idx !in slots {
        return;
      }
      var folder := slots[idx];
      var listing := set name | name in folder && InSlotFolder(name);
      while listing != {}
        invariant listing <= folder.Keys
        invariant forall name :: name in worlds <==>
                    name in folder && InSlotFolder(name) && name !in listing && folder[name] != ""
        invariant forall i, j :: 0 <= i < j < |worlds| ==> worlds[i] != worlds[j]
        decreases listing
      {
        var name :| name in listing;
        if folder[name] != "" {
          worlds := worlds + [name];
        }
        listing := listing - {name};
      }
    }

    /** gatherAvailableSavegames: one entry per slot, the slot's name exactly
        when the slot is in use; an unreadable info file aborts the gathering
        as the exception would. */
    method GatherAvailableSavegames(env: Env) returns (r: Result<seq<Option<string>>, InfoError>)
      ensures r.Err? <==> exists i :: 0 <= i < MaxSlots(env) && ReadSavegameInfo(env, slots, i).Err?
      ensures r.Ok? ==> |r.value| == MaxSlots(env)
      ensures r.Ok? ==> forall i :: 0 <= i < |r.value| ==> (r.value[i].Some? <==> IsSavegameAvailable(slots, i))
      ensures r.Ok? ==> forall i :: 0 <= i < |r.value| && IsSavegameAvailable(slots, i) ==>
                          ReadSavegameInfo(env, slots, i).Ok? && r.value[i] == Some(ReadSavegameInfo(env, slots, i).value.name)
    {
      var numSlots := MaxSlots(env);
      var names := new Option<string>[numSlots](_ => None);
      for i := 0 to numSlots
        invariant forall j :: i <= j < numSlots ==> names[j] == None
        invariant forall j :: 0 <= j < i ==> ReadSavegameInfo(env, slots, j).Ok?
        invariant forall j :: 0 <= j < i ==> (names[j].Some? <==> IsSavegameAvailable(slots, j))
        invariant forall j :: 0 <= j < i && IsSavegameAvailable(slots, j) ==>
                    names[j] == Some(ReadSavegameInfo(env, slots, j).value.name)
      {
        if IsSavegameAvailable(slots, i) {
          var info := ReadSavegameInfo(env, slots, i);
          if info.Err? {
            return Err(info.error);
          }
          names[i] := Some(info.value.name);
        }
      }
      r := Ok(names[..]);
    }
  }

  // ---------------------------------------------------------------------------
  // Properties

  /** A slot is in use exactly when reading its info file gives something. */
  lemma AvailableMeansInfoFileNonEmpty(store: Store, idx: int)
    ensures IsSavegameAvailable(store, idx) <==> ReadFileInSlot(store, idx, INFO_FILE) != ""
    ensures IsSavegameAvailable(store, idx) ==> idx in store && INFO_FILE in store[idx]
  {
  }

  /** Distinct slot indices have distinct folders, so keying the store by the
      index loses nothing. */
  lemma SavegamePathsDistinct(env: Env, i: int, j: int)
    requires BuildSavegamePath(env, i) == BuildSavegamePath(env, j)
    ensures i == j
  {
    var prefix := SavegameFolderPrefix(env);
    SavegamePathSplit(env, i);
    SavegamePathSplit(env, j);
    assert IntToString(i) == BuildSavegamePath(env, i)[|prefix|..] == IntToString(j);
    IntToStringInjective(i, j);
  }

  /** A full file path determines both the slot and the relative path: the
      rendered index never holds a '/', so the slot part ends at the first one. */
  lemma SlotFilePathsDistinct(env: Env, i: int, p: string, j: int, q: string)
    requires SlotFilePath(env, i, p) == SlotFilePath(env, j, q)
    ensures i == j && p == q
  {
    var prefix := SavegameFolderPrefix(env);
    var a, b := IntToString(i), IntToString(j);
    var path := SlotFilePath(env, i, p);
    SlotFilePathSplit(env, i, p);
    SlotFilePathSplit(env, j, q);
    assert a + "/" + p == path[|prefix|..] == b + "/" + q;
    SplitAtFirstSlash(a, p, b, q);
    IntToStringInjective(i, j);
  }

  /** A slot folder is the common prefix followed by the rendered index. */
  lemma SavegamePathSplit(env: Env, i: int)
    ensures BuildSavegamePath(env, i) == SavegameFolderPrefix(env) + IntToString(i)
  {
  }

  /** A slot file path is the common prefix, the rendered index, a '/' and the
      relative path. */
  lemma SlotFilePathSplit(env: Env, i: int, p: string)
    ensures SlotFilePath(env, i, p) == SavegameFolderPrefix(env) + (IntToString(i) + "/" + p)
  {
  }

  /** Cutting a path at its first '/' is unambiguous. */
  lemma SplitAtFirstSlash(a: string, p: string, b: string, q: string)
    requires '/' !in a && '/' !in b
    requires a + "/" + p == b + "/" + q
    ensures a == b && p == q
  {
    var rest := a + "/" + p;
    assert rest == b + "/" + q;
    assert rest[|a|] == '/' && rest[|b|] == '/';
    assert |a| <= |b| by {
      if |b| < |a| {
        assert false;
      }
    }
    assert |b| <= |a| by {
      if |a| < |b| {
        assert false;
      }
    }
    assert a == rest[..|a|] == b;
    assert p == rest[|a| + 1..] == q;
  }

  /** Gothic and Gothic 2 saves under the same user-data root never share a folder. */
  lemma GameFoldersDistinct(env1: Env, env2: Env, i: int, j: int)
    requires env1.userData == env2.userData && env1.game != env2.game
    ensures BuildSavegamePath(env1, i) != BuildSavegamePath(env2, j)
  {
    var k := |env1.userData| + 7;
    FolderCharAfterGame(env1, i);
    FolderCharAfterGame(env2, j);
    assert BuildSavegamePath(env1, i)[k] != BuildSavegamePath(env2, j)[k];
  }

  /** The character seven places after the user-data root: the '/' that ends
      "Gothic", or the blank inside "Gothic 2". */
  lemma FolderCharAfterGame(env: Env, idx: int)
    ensures |BuildSavegamePath(env, idx)| > |env.userData| + 7
    ensures BuildSavegamePath(env, idx)[|env.userData| + 7] == if env.game == Gothic1 then '/' else ' '
  {
  }

  /** buildWorldPath names the file writeWorld and readWorld address. */
  lemma WorldPathIsSlotFile(env: Env, idx: int, worldName: string)
    ensures BuildWorldPath(env, idx, worldName) == SlotFilePath(env, idx, WorldFileName(worldName))
  {
  }

  /** Every file the manager writes is on the allowlist of clearSavegame. */
  lemma ManagerFilesAreRegothFiles(worldName: string, playerName: string)
    ensures IsRegothFile(INFO_FILE)
    ensures IsRegothFile(WorldFileName(worldName))
    ensures StartsWith(playerName, PLAYER) ==> IsRegothFile(PlayerFileName(playerName))
    ensures IsRegothFile(PlayerFileName(PLAYER))
    ensures IsRegothFile(SCRIPT_ENGINE_FILE) && IsRegothFile(DIALOG_MANAGER_FILE)
    ensures '/' !in worldName ==> InSlotFolder(WorldFileName(worldName))
    ensures '/' !in playerName ==> InSlotFolder(PlayerFileName(playerName))
  {
    FixedFilesAreRegothFiles();
    var world := WorldFileName(worldName);
    assert world[..6] == "world_";
    assert world[|world| - 5..] == ".json";
    var player := PlayerFileName(playerName);
    assert player[|player| - 5..] == ".json";
    if StartsWith(playerName, PLAYER) {
      assert player[..6] == playerName[..6];
    }
    if '/' !in worldName {
      forall k | 0 <= k < |world| ensures world[k] != '/' {
        if 6 <= k < 6 + |worldName| {
          assert world[k] == worldName[k - 6];
        }
      }
    }
    if '/' !in playerName {
      forall k | 0 <= k < |player| ensures player[k] != '/' {
        if k < |playerName| {
          assert player[k] == playerName[k];
        }
      }
    }
  }

  /** The fixed file names: each starts with its allowlisted prefix and ends in ".json". */
  lemma FixedFilesAreRegothFiles()
    ensures IsRegothFile(INFO_FILE) && IsRegothFile(PlayerFileName(PLAYER))
    ensures IsRegothFile(SCRIPT_ENGINE_FILE) && IsRegothFile(DIALOG_MANAGER_FILE)
    ensures InSlotFolder(INFO_FILE) && InSlotFolder(PlayerFileName(PLAYER))
    ensures InSlotFolder(SCRIPT_ENGINE_FILE) && InSlotFolder(DIALOG_MANAGER_FILE)
  {
    FixedFilesInSlotFolder();
    AllowlistedName(INFO_FILE, "regoth_") by {
      assert INFO_FILE[..7] == "regoth_" && INFO_FILE[11..] == ".json";
    }
    assert PlayerFileName(PLAYER) == "player.json";
    AllowlistedName("player.json", "player") by {
      assert "player.json"[..6] == "player" && "player.json"[6..] == ".json";
    }
    AllowlistedName(SCRIPT_ENGINE_FILE, "scriptengine") by {
      assert SCRIPT_ENGINE_FILE[..12] == "scriptengine" && SCRIPT_ENGINE_FILE[12..] == ".json";
    }
    AllowlistedName(DIALOG_MANAGER_FILE, "dialogmanager") by {
      assert DIALOG_MANAGER_FILE[..13] == "dialogmanager" && DIALOG_MANAGER_FILE[13..] == ".json";
    }
  }

  /** The fixed file names hold no '/'. */
  lemma FixedFilesInSlotFolder()
    ensures InSlotFolder(INFO_FILE) && InSlotFolder(PlayerFileName(PLAYER))
    ensures InSlotFolder(SCRIPT_ENGINE_FILE) && InSlotFolder(DIALOG_MANAGER_FILE)
  {
  }

  /** A ".json" name with one of the five prefixes is on the allowlist. */
  lemma AllowlistedName(name: string, prefix: string)
    requires prefix == "regoth_" || prefix == "world_" || prefix == "player" ||
             prefix == "dialogmanager" || prefix == "scriptengine"
    requires StartsWith(name, prefix) && EndsWith(name, ".json")
    ensures IsRegothFile(name)
  {
  }

  /** What clearing does to one file of the slot: REGoth files directly in the
      folder that can be opened become empty, every other file keeps its bytes,
      and no file appears or disappears. */
  lemma ClearedSlotFile(slot: Slot, unwritable: set<string>, name: string)
    ensures ClearedSlot(slot, unwritable).Keys == slot.Keys
    ensures name in slot && InSlotFolder(name) && IsRegothFile(name) && name !in unwritable ==>
              ClearedSlot(slot, unwritable)[name] == ""
    ensures name in slot && !(InSlotFolder(name) && IsRegothFile(name)) ==>
              ClearedSlot(slot, unwritable)[name] == slot[name]
    ensures name in slot && name in unwritable ==> ClearedSlot(slot, unwritable)[name] == slot[name]
  {
  }

  /** clearSavegame on a slot that is not in use changes nothing, and it never
      touches another slot. */
  lemma ClearTouchesOnlyAvailableSlot(store: Store, idx: int, unwritable: set<string>, other: int)
    ensures !IsSavegameAvailable(store, idx) ==> Cleared(store, idx, unwritable) == store
    ensures Cleared(store, idx, unwritable).Keys == store.Keys
    ensures other != idx && other in store ==> Cleared(store, idx, unwritable)[other] == store[other]
  {
  }

  /** After clearing, the slot is no longer in use: regoth_save.json is itself a
      REGoth file. */
  lemma ClearMakesUnavailable(store: Store, idx: int, unwritable: set<string>)
    requires INFO_FILE !in unwritable
    ensures !IsSavegameAvailable(Cleared(store, idx, unwritable), idx)
  {
    if IsSavegameAvailable(store, idx) {
      FixedFilesAreRegothFiles();
      ClearedSlotFile(store[idx], unwritable, INFO_FILE);
    }
  }

  /** Clearing an available slot empties every file the manager writes there. */
  lemma ClearEmptiesManagerFiles(store: Store, idx: int, worldName: string)
    requires IsSavegameAvailable(store, idx)
    requires '/' !in worldName
    ensures var cleared := Cleared(store, idx, {});
            && ReadFileInSlot(cleared, idx, INFO_FILE) == ""
            && ReadWorld(cleared, idx, worldName) == ""
            && ReadPlayer(cleared, idx, PLAYER) == ""
            && ReadFileInSlot(cleared, idx, SCRIPT_ENGINE_FILE) == ""
            && ReadFileInSlot(cleared, idx, DIALOG_MANAGER_FILE) == ""
  {
    ManagerFilesAreRegothFiles(worldName, PLAYER);
    assert InSlotFolder(INFO_FILE) && InSlotFolder(PlayerFileName(PLAYER));
    assert InSlotFolder(SCRIPT_ENGINE_FILE) && InSlotFolder(DIALOG_MANAGER_FILE);
    var slot := store[idx];
    ClearedSlotFile(slot, {}, INFO_FILE);
    ClearedSlotFile(slot, {}, WorldFileName(worldName));
    ClearedSlotFile(slot, {}, PlayerFileName(PLAYER));
    ClearedSlotFile(slot, {}, SCRIPT_ENGINE_FILE);
    ClearedSlotFile(slot, {}, DIALOG_MANAGER_FILE);
  }

  /** Clearing twice is clearing once. */
  lemma ClearIdempotent(store: Store, idx: int, unwritable: set<string>)
    ensures Cleared(Cleared(store, idx, unwritable), idx, unwritable) == Cleared(store, idx, unwritable)
  {
    var once := Cleared(store, idx, unwritable);
    if IsSavegameAvailable(store, idx) && IsSavegameAvailable(once, idx) {
      var slot := store[idx];
      var c := ClearedSlot(slot, unwritable);
      assert ClearedSlot(c, unwritable) == c by {
        forall name | name in c ensures ClearedSlot(c, unwritable)[name] == c[name] {
          ClearedSlotFile(slot, unwritable, name);
        }
      }
    }
  }

  /** A successful write followed by a read of the same file gives the data back,
      and no other file of any slot changes. */
  lemma WriteThenRead(store: Store, idx: int, relativePath: string, data: string, otherIdx: int, otherPath: string)
    ensures ReadFileInSlot(Written(store, idx, relativePath, data), idx, relativePath) == data
    ensures (otherIdx, otherPath) != (idx, relativePath) ==>
              FileData(Written(store, idx, relativePath, data), otherIdx, otherPath) == FileData(store, otherIdx, otherPath)
  {
  }

  /** writeSavegameInfo then readSavegameInfo: the same name, world and play time,
      stamped with the latest version, and the slot counts as in use. */
  lemma WriteInfoThenRead(env: Env, store: Store, idx: int, info: SavegameInfo)
    requires DumpRoundTrips(env, EncodeInfo(env, info))
    ensures var written := Written(store, idx, INFO_FILE, env.dump(EncodeInfo(env, info)));
            && IsSavegameAvailable(written, idx)
            && ReadSavegameInfo(env, written, idx) == Ok(SavegameInfo(env.latestVersion, info.name, info.world, info.timePlayed))
  {
  }

  /** A slot just cleared refuses to load with the "not available" message. */
  lemma LoadAfterClear(env: Env, store: Store, idx: int)
    requires 0 <= idx < MaxSlots(env)
    ensures LoadSaveGameSlot(env, Cleared(store, idx, {}), idx) == Failed(NotAvailableMessage(idx))
  {
    ClearMakesUnavailable(store, idx, {});
  }

  /** A slot whose info file and world file were written loads that world, with
      the record read back from the info file. */
  lemma LoadAfterSave(env: Env, store: Store, idx: int, info: SavegameInfo, worldData: string)
    requires 0 <= idx < MaxSlots(env)
    requires DumpRoundTrips(env, EncodeInfo(env, info))
    requires worldData != ""
    ensures var saved := Written(Written(store, idx, INFO_FILE, env.dump(EncodeInfo(env, info))),
                                 idx, WorldFileName(info.world), worldData);
            LoadSaveGameSlot(env, saved, idx)
              == Loading(SavegameInfo(env.latestVersion, info.name, info.world, info.timePlayed), worldData)
  {
    var withInfo := Written(store, idx, INFO_FILE, env.dump(EncodeInfo(env, info)));
    var worldFile := WorldFileName(info.world);
    assert worldFile[0] == 'w' && INFO_FILE[0] == 'r';
    var saved := Written(withInfo, idx, worldFile, worldData);
    WriteInfoThenRead(env, store, idx, info);
    WriteThenRead(withInfo, idx, worldFile, worldData, idx, INFO_FILE);
    assert FileData(saved, idx, INFO_FILE) == FileData(withInfo, idx, INFO_FILE);
  }

  /** A slot without an info file reads as the default record, as the source does
      when the file is empty; an info file without a version key reads as version 0. */
  lemma ReadInfoDefaults(env: Env, store: Store, idx: int)
    ensures FileData(store, idx, INFO_FILE) == "" ==> ReadSavegameInfo(env, store, idx) == Ok(env.defaultInfo)
    ensures (IsSavegameAvailable(store, idx) && env.parse(FileData(store, idx, INFO_FILE)).Some? &&
             env.parse(FileData(store, idx, INFO_FILE)).value.version.None? &&
             ReadSavegameInfo(env, store, idx).Ok?) ==> ReadSavegameInfo(env, store, idx).value.version == 0
  {
  }

  // ---------------------------------------------------------------------------
  // getSavegameWorlds as written

  /** No file of the slot lies below a path that names another file, as on
      every real file system, where a regular file holds no entries. */
  predicate NoFileBelowFile(slot: Slot) {
    forall a, b :: a in slot && b in slot ==> !StartsWith(b, a + "/")
  }

  /** On such a folder the as-written test never succeeds, so
      getSavegameWorlds as written lists no name at all. */
  lemma WorldsAsWrittenListNothing(store: Store, idx: int, name: string)
    requires idx in store ==> NoFileBelowFile(store[idx])
    ensures !(idx in store && name in store[idx] && InSlotFolder(name) && FileData(store, idx, name + "/" + name) != "")
  {
  }

  /** A slot holding only a non-empty world file: the intended listing holds
      that file, the as-written one holds nothing. */
  lemma WorldsAsWrittenMissWorldFile(name: string)
    ensures var store: Store := map[0 := map["world_x.json" := "data"]];
              InSlotFolder("world_x.json") && FileData(store, 0, "world_x.json") != "" &&
              !(name in store[0] && InSlotFolder(name) && FileData(store, 0, name + "/" + name) != "")
  {
    var store: Store := map[0 := map["world_x.json" := "data"]];
    assert NoFileBelowFile(store[0]) by {
      forall a, b | a in store[0] && b in store[0]
        ensures !StartsWith(b, a + "/")
      {
        assert |a + "/"| > |b|;
      }
    }
    WorldsAsWrittenListNothing(store, 0, name);
  }
}
