# REGoth save slots and dialog choice registry, in Dafny

This project models two parts of the REGoth engine, which re-implements
Gothic and Gothic 2.

1. **The save-slot file logic** of `SavegameManager` (module `SavegameManager`,
   file `savegame_manager.dfy`). The user-data directory becomes an abstract
   store. For each slot that has a folder, the store maps a path relative to
   that folder to the file's contents. A missing file and an empty file both
   have size zero, and the manager never tells them apart.
   - The pure parts are functions over store values. These are the folder and
     file paths, the game-type lookups, the REGoth-file allowlist, slot
     availability, `readFileInSlot`, `readWorld`, `readPlayer`,
     `readSavegameInfo` and the guards of `loadSaveGameSlot`.
   - The parts that change the file system are methods of the class
     `SaveDirectory`, whose field `slots` is the store:
     - `clearSavegame` runs a loop over the folder listing;
     - `writeFileInSlot`, `writeWorld`, `writePlayer` and `writeSavegameInfo`
       replace one file.
   - `getSavegameWorlds` and `gatherAvailableSavegames` are read-only methods
     with loops.
   - The global engine pointer and the user-data location become an explicit
     `Env` value. The header constants become `Env` fields too (see "Left out").
2. **The choice registry and conversation flags** of `DialogManager` (module
   `Dialog`, file `dialog_manager.dfy`). This is the class `DialogManager`.
   - Its fields are the choice vector, the player and target handles, the four
     flags and the `importantKnown` set.
   - Its methods are `addChoice`, `clearChoices`, `beforeFrontIndex`,
     `sortChoices`, `setSubDialogActive`, the accessors, the index precondition
     of `performChoice`, and the insertion into `importantKnown`.
   - Each mutating method's `modifies` clause names only the field it changes,
     so "no other field changes" is checked by the frame.

`util.dfy` (module `Util`) holds the helpers: `Option` and `Result`, prefix
and suffix tests, and the decimal rendering that `std::to_string` performs.

Notes on how the source was read:
- `clearSavegame` truncates a file by reopening it for writing. The model
  empties the file but keeps it in the store, so its size becomes 0.
- The directory walk is visibly non-recursive only in `clearSavegame`, which
  passes `false` for recursion (SavegameManager.cpp:84). `getSavegameWorlds`
  passes no recursion argument (SavegameManager.cpp:43), so its behaviour
  depends on the default of `forEachFile`. The model visits only paths without
  a '/' in both (see "Left out").
- A file that cannot be opened is skipped with a warning. The caller passes
  these files in as the set `unwritable`.
- Parsing the info file can throw. This happens on malformed JSON, or when
  `name`, `world` or `timePlayed` is missing (reading an absent key through
  the non-const index operator gives null, which does not convert). The model
  returns an `InfoError` in these cases. `gatherAvailableSavegames` stops at
  the first such error, as the exception would.
- The world file name that `buildWorldPath` forms is the one that `writeWorld`
  and `readWorld` pass to the slot file functions (`WorldPathIsSlotFile`).
- `sortChoices` promises only "sorted by `nr`, same entries". A stable order
  is not promised. Whether DialogManager.cpp sorts with `std::sort` or
  `std::stable_sort` is not visible, so the model promises no order among
  entries with equal `nr`.

## Model

| member | source | states |
|---|---|---|
| `Util.IntToString` | src/logic/SavegameManager.cpp:36 | the slot number is rendered as `std::to_string` does: non-empty, a leading '-' exactly for negative numbers, only digits after that, never a '/' |
| `Util.IntToStringInjective` | src/logic/SavegameManager.cpp:36 | distinct slot indices render as distinct strings (by induction on the digits) |
| `SavegameManager.MaxSlots` | src/logic/SavegameManager.cpp:248-258 | Gothic gives G1_MAX_SLOTS and any other game type gives G2_MAX_SLOTS, from the game type alone |
| `SavegameManager.GameSpecificSubFolderName` | src/logic/SavegameManager.cpp:264-269 | Gothic gives the subfolder "Gothic" and any other game type gives "Gothic 2" |
| `SavegameManager.BuildSavegamePath` | src/logic/SavegameManager.cpp:33-37 | the slot folder lies in `<userData>/<game folder>/` and is the single path component `savegame_<idx>`, with no '/' in it |
| `SavegameManager.BuildWorldPath` | src/logic/SavegameManager.cpp:168-171 | the world path starts with the slot folder followed by `/world_` and ends with `.json` |
| `SavegameManager.IsRegothFile` | src/logic/SavegameManager.cpp:64-69 | a name is a REGoth file exactly when it ends with `.json` and starts with one of `regoth_`, `world_`, `player`, `dialogmanager`, `scriptengine`, checked against the prefix list |
| `SavegameManager.IsSavegameAvailable` | src/logic/SavegameManager.cpp:87-90 | a slot is available exactly when its folder exists and holds a non-empty `regoth_save.json` |
| `SavegameManager.ReadWorld` | src/logic/SavegameManager.cpp:163-166 | the world file's full contents, or "" exactly when the file `world_<name>.json` is missing or empty |
| `SavegameManager.ReadPlayer` | src/logic/SavegameManager.cpp:153-156 | the player file's full contents, or "" exactly when the file `<name>.json` is missing or empty |
| `SavegameManager.SavegamePathsDistinct` | src/logic/SavegameManager.cpp:33-37 | two slots whose folder paths are equal as strings are the same slot |
| `SavegameManager.SlotFilePathsDistinct` | src/logic/SavegameManager.cpp:271-282 | the full path string `buildSavegamePath(idx) + "/" + relativePath` determines both the slot and the relative path |
| `SavegameManager.GameFoldersDistinct` | src/logic/SavegameManager.cpp:264-269 | Gothic and Gothic 2 save folders under the same user-data root never coincide |
| `SavegameManager.WorldPathIsSlotFile` | src/logic/SavegameManager.cpp:158-171 | `buildWorldPath(idx, w)` is the slot file `"world_" + w + ".json"` that `writeWorld` and `readWorld` address |
| `SavegameManager.ManagerFilesAreRegothFiles` | src/logic/SavegameManager.cpp:64-69 | every file the manager writes matches the allowlist, so clearing reaches it: `regoth_save.json`, `"world_" + w + ".json"`, `player.json` (any player name starting with "player"), `scriptengine.json`, `dialogmanager.json`; with a '/'-free name each lies directly in the slot folder |
| `SavegameManager.FixedFilesAreRegothFiles` | src/logic/SavegameManager.cpp:231-232 | `regoth_save.json`, `player.json`, `scriptengine.json` and `dialogmanager.json` each match the allowlist and lie directly in the slot folder |
| `SavegameManager.AvailableMeansInfoFileNonEmpty` | src/logic/SavegameManager.cpp:87-90 | a slot is available exactly when its `regoth_save.json` reads as non-empty |
| `SavegameManager.ReadFileInSlot` | src/logic/SavegameManager.cpp:271-279 | "" exactly when the slot folder or the file is missing or the file is empty, and otherwise the file's full contents |
| `SavegameManager.EncodeInfo` | src/logic/SavegameManager.cpp:98-102 | the record written always carries version LATEST_KNOWN_VERSION |
| `SavegameManager.DecodeInfo` | src/logic/SavegameManager.cpp:133-145 | the document converts exactly when name, world and timePlayed are present; the version is 0 when the key is absent; the other fields are copied |
| `SavegameManager.ReadSavegameInfo` | src/logic/SavegameManager.cpp:121-146 | an unavailable slot gives the default record; unparsable text gives an error; otherwise the parsed document is decoded |
| `SavegameManager.ReadInfoDefaults` | src/logic/SavegameManager.cpp:125-138 | an empty or missing info file reads as the default record, and a document without a version reads as version 0 |
| `SavegameManager.WithSlotFolder` | src/logic/SavegameManager.cpp:17-31 | after the folders are ensured the slot exists, and every existing slot keeps its files |
| `SavegameManager.SaveDirectory.WriteFileInSlot` | src/logic/SavegameManager.cpp:281-297 | returns whether the file could be opened; on success the file holds the data and nothing else changes; on failure only the slot folder has been created |
| `SavegameManager.SaveDirectory.WriteWorld` | src/logic/SavegameManager.cpp:158-161 | writes the already serialised world into `"world_" + worldName + ".json"` |
| `SavegameManager.SaveDirectory.WritePlayer` | src/logic/SavegameManager.cpp:148-151 | writes the already serialised player into `playerName + ".json"` |
| `SavegameManager.SaveDirectory.WriteSavegameInfo` | src/logic/SavegameManager.cpp:92-119 | on success `regoth_save.json` holds the serialised record with the latest version; on failure it returns false |
| `SavegameManager.WriteThenRead` | src/logic/SavegameManager.cpp:271-297 | a successful write followed by a read of the same file gives the data back, and every other file of every slot is unchanged |
| `SavegameManager.WriteInfoThenRead` | src/logic/SavegameManager.cpp:92-146 | write-then-read of the info record gives the same name, world and timePlayed with version LATEST_KNOWN_VERSION, and the slot becomes available, provided the JSON library reads back what it wrote |
| `SavegameManager.ClearedSlot` | src/logic/SavegameManager.cpp:61-84 | the closed form of the listing pass over one slot: the same files; each either keeps its bytes or is emptied; a file that cannot be opened keeps its bytes |
| `SavegameManager.Cleared` | src/logic/SavegameManager.cpp:56-85 | the closed form of `clearSavegame`: the same slots; no slot but `idx` changes; an unavailable slot leaves the store unchanged; an available one becomes its `ClearedSlot` |
| `SavegameManager.SaveDirectory.constructor` | src/logic/SavegameManager.cpp:35 | the directory under the user-data location starts out as the given store |
| `SavegameManager.SaveDirectory.ClearSavegame` | src/logic/SavegameManager.cpp:56-85 | the new store is `Cleared(old store)`: nothing changes unless the slot is available; then every REGoth file directly in the folder that can be opened is emptied |
| `SavegameManager.ClearedSlotFile` | src/logic/SavegameManager.cpp:61-84 | clearing keeps the set of files; it empties REGoth files in the slot folder that can be opened; it leaves every unrecognised file, every file in a subfolder and every file that cannot be opened byte for byte unchanged |
| `SavegameManager.ClearTouchesOnlyAvailableSlot` | src/logic/SavegameManager.cpp:56-59 | clearing a slot whose info file is missing or empty changes nothing, and clearing never changes another slot |
| `SavegameManager.ClearMakesUnavailable` | src/logic/SavegameManager.cpp:87-90 | after clearing, the slot is not available, because `regoth_save.json` is itself a REGoth file |
| `SavegameManager.ClearEmptiesManagerFiles` | src/logic/SavegameManager.cpp:231-241 | after clearing an available slot, the info, world, player, script-engine and dialog-manager files all read as "" |
| `SavegameManager.ClearIdempotent` | src/logic/SavegameManager.cpp:56-85 | clearing twice is the same as clearing once |
| `SavegameManager.SaveDirectory.GetSavegameWorldsAsWritten` | src/logic/SavegameManager.cpp:39-54 | lists, each once, exactly those files directly in the slot folder for which the size test at line 46 succeeds, i.e. for which a non-empty file `name + "/" + name` exists in the slot |
| `SavegameManager.WorldsAsWrittenListNothing` | src/logic/SavegameManager.cpp:46-47 | when no file of the slot lies below another file's name, as on a real file system, the as-written size test rejects every listed name, so the as-written method returns nothing |
| `SavegameManager.WorldsAsWrittenMissWorldFile` | src/logic/SavegameManager.cpp:46-50 | a slot holding only the non-empty `world_x.json`: the intended test accepts that file, the as-written test accepts no name |
| `SavegameManager.SaveDirectory.GetSavegameWorlds` | src/logic/SavegameManager.cpp:39-54 | the evidently intended listing: exactly the non-empty files directly in the slot folder, each once |
| `SavegameManager.SaveDirectory.GatherAvailableSavegames` | src/logic/SavegameManager.cpp:178-207 | one entry per slot (`maxSlots()` of them); entry i holds the slot's name exactly when slot i is available; it fails exactly when some slot's info file cannot be read |
| `SavegameManager.LoadSaveGameSlot` | src/logic/SavegameManager.cpp:209-228 | the "not available" message exactly for an unavailable slot; an info-read error is passed on; otherwise the "Target world-file invalid" message with the world path when the world file is empty, or the record and the world data |
| `SavegameManager.LoadAfterClear` | src/logic/SavegameManager.cpp:214-217 | a slot that was just cleared refuses to load with the "not available" message |
| `SavegameManager.LoadAfterSave` | src/logic/SavegameManager.cpp:219-228 | a slot whose info file and non-empty world file were written loads that world with the record read back |
| `Dialog.Comparator` | src/logic/DialogManager.h:47 | an entry goes before another only when its `nr` is smaller, so never before itself or before an entry with the same `nr` |
| `Dialog.ComparatorIsStrictWeakOrder` | src/logic/DialogManager.h:47 | `comparator` is irreflexive, asymmetric and transitive, and incomparability is transitive |
| `Dialog.SortedMeansNonDecreasing` | src/logic/DialogManager.h:47 | sorted by the comparator means the `nr` values never decrease |
| `Dialog.InsertByNr` | src/logic/DialogManager.h:130-133 | inserting one entry gives the old entries plus that one (as a multiset) |
| `Dialog.InsertKeepsSorted` | src/logic/DialogManager.h:130-133 | inserting into a sorted registry keeps it sorted (by induction) |
| `Dialog.SmallestNrSortsFirst` | src/logic/DialogManager.h:115-118 | an entry whose `nr` is below every registered one comes first in every sorted permutation of the registry plus that entry |
| `Dialog.DialogManager.constructor` | src/logic/DialogManager.h:27 | a new manager has no choices, no known important infos, invalid handles and every flag false (the initial flags are assumed, see "Left out") |
| `Dialog.DialogManager.IsDialogActive` | src/logic/DialogManager.h:89-92 | returns `m_DialogActive`; its reads frame is that one field |
| `Dialog.DialogManager.IsTalking` | src/logic/DialogManager.h:94-97 | returns `m_Talking`; its reads frame is that one field |
| `Dialog.DialogManager.GetTarget` | src/logic/DialogManager.h:99-102 | returns `m_Interaction.target`; its reads frame is that one field |
| `Dialog.DialogManager.ClearChoices` | src/logic/DialogManager.h:104-107 | the choice list becomes empty, except while `m_SubDialogActive` is true, when it is kept; no other field changes |
| `Dialog.DialogManager.AddChoice` | src/logic/DialogManager.h:109-113 | the entry is appended at the end, the earlier entries are unchanged, and no other field changes |
| `Dialog.DialogManager.BeforeFrontIndex` | src/logic/DialogManager.h:115-118 | the result is strictly smaller than every registered `nr`; the model's value, one below the smallest or 0 for an empty registry, is assumed (see "Left out") |
| `Dialog.DialogManager.SetSubDialogActive` | src/logic/DialogManager.h:120-123 | `m_SubDialogActive` becomes the flag and no other field changes |
| `Dialog.DialogManager.SortChoices` | src/logic/DialogManager.h:130-133 | afterwards the choices are sorted by `nr` and are a permutation of the choices before |
| `Dialog.DialogManager.PerformChoice` | src/logic/DialogManager.h:159-163 | the index must lie within the current choices, and the selected entry is the one at that index |
| `Dialog.DialogManager.RememberImportant` | src/logic/DialogManager.h:255-258 | `importantKnown` gains the info, and re-inserting an info already remembered leaves the set unchanged |

## Findings

| source | as written | input that shows it | evidently intended | confidence | as-written member | corrected member |
|---|---|---|---|---|---|---|
| src/logic/SavegameManager.cpp:46 | `getFileSize(path + "/" + name)`, where `path` is the listed file itself, as in `clearSavegame` (line 75) | a slot holding only the non-empty `world_x.json`: the size asked for is that of `world_x.json/world_x.json`, which does not exist, so no world is listed | test the size of the listed file itself, so that every non-empty file is listed | medium, not executed; `forEachFile` is not part of this model | `SavegameManager.SaveDirectory.GetSavegameWorldsAsWritten` with `SavegameManager.WorldsAsWrittenMissWorldFile` | `SavegameManager.SaveDirectory.GetSavegameWorlds` |

## Left out


- File-system work is replaced by the store value: `Utils::mkdir`, `forEachFile`, `getFileSize`, `readFileContents`, `fopen`, `std::ofstream` and `getUserDataLocation`. Utils is not part of this model. The model takes the `path` that `forEachFile` hands to both callbacks to be the listed file itself, as `clearSavegame` uses it. Under that one reading `getSavegameWorlds`, as written, tests a path below the listed file (see "Findings"). The directory listing order is left open: the loops pick listed names in any order.
- Whether a file can be opened for writing is an input to the model (`canOpen`, `unwritable`). mkdir failures are not modelled separately.
- The JSON library (`json::parse`, `dump`) and `iso_8859_1_to_utf8` are foreign calls. They appear as the `Env` fields `dump` and `parse` over the abstract document `InfoDoc`, and world or player data is passed in already serialised. `WriteInfoThenRead` and `LoadAfterSave` assume that `parse` reads back what `dump` wrote (`DumpRoundTrips`).
- SavegameManager.h is not part of this model. `G1_MAX_SLOTS`, `G2_MAX_SLOTS`, `LATEST_KNOWN_VERSION` and the field values of a default-constructed `SavegameInfo` are therefore `Env` fields rather than fixed constants. The exact width of `version` and `timePlayed` is not modelled either.
- `loadSaveGameSlot` after its guards is not modelled: parsing the world, script-engine, dialog-manager and player files, `resetSession`, `addWorld`, `importVobAndTakeControl`, `setTotalSeconds`, `ExcludeFrameTime` and the global engine pointer. Its range assertion on the index is its precondition.
- `SavegameManager.LoadSaveGameSlot`: does not model the exception `json::parse` throws on an unparsable world file, because that parse happens after the guards.
- The deprecated `saveToSaveGameSlot` (only `assert(false)`), `init`, all logging, and `ensureSavegameFolders` beyond "the slot folder exists" are left out.
- `SavegameManager.SaveDirectory.GetSavegameWorlds`: this is the intended listing, not the code as written (see "Findings"). It lists every non-empty file, including the info and player files, because the callback does not filter by name. Whether the listed name includes the extension depends on `forEachFile`, which is not part of this model; the model uses the full file name. It also assumes that `forEachFile` does not recurse by default, because line 43 passes no recursion argument and Utils is not part of this model. With a recursive default, the intended listing would also include non-empty files in subfolders. The same assumption holds for `GetSavegameWorldsAsWritten`; on a real file system its size test also fails for nested names, so that listing stays empty either way.
- Paths are compared as strings. `..`, `.`, doubled '/' and case-insensitive file systems, which can make two different strings name one file, are not modelled. The store also admits a file `a` beside a file `a/b`, which no real file system holds; `WorldsAsWrittenListNothing` makes that assumption explicit.
- DialogManager.cpp is not part of this model. The bodies of `clearChoices`, `addChoice`, `beforeFrontIndex`, `sortChoices` and `setSubDialogActive` are assumed from the header's comments and field documentation, which promise less than the bodies state.
- `Dialog.DialogManager.constructor`: the header declares the constructor without a body and gives the bool members no initialiser. That all four flags start false and both handles start invalid is assumed, because DialogManager.cpp is not part of this model.
- `Dialog.DialogManager.BeforeFrontIndex`: the header promises only a value smaller than every registered `nr`. The exact value, smallest `nr` minus 1 or 0 when there are no choices, is assumed, because DialogManager.cpp is not part of this model. It returns the mathematical value `nr - 1` as an unbounded integer. It does not model the `int` underflow when a registered choice already has `nr == INT32_MIN`; in that case an entry with the returned index cannot be built.
- `Dialog.DialogManager.SortChoices`: promises no order among entries with equal `nr`. The sort used is assumed, because DialogManager.cpp is not part of this model; the model's insertion happens to keep insertion order.
- `Dialog.DialogManager.PerformChoice`: models only the index precondition and the selection of the entry. Running the script function, marking important infos and re-evaluating the choices happen in DialogManager.cpp, which is not part of this model. `RememberImportant` models the `importantKnown` insertion on its own. The header comment names `m_Interaction.infos` as the index space of `choice` (DialogManager.h:161). The model indexes the list the user picks from, `m_Interaction.choices`, in its place. That is an assumption, because DialogManager.cpp is not part of this model.
- The dialog methods whose bodies depend on the script VM or the UI are left out: `init`, `update`, `startDialog`, `endDialog`, `displaySubtitle`, `stopDisplaySubtitle`, `cancelTalk`, `flushChoices`, `updateChoices`, `queueDialogEndEvent`, `onAIOutput`, `onAIProcessInfos`, `setCurrentMessage` and `exportDialogManager`/`importDialogManager`. So are the subtitle box, the print-screen view, the conversation-message handle and the script-side dialog manager, and with them the auto-play policy for important choices and the deferred end of a dialog. `m_ProcessInfos` and `m_Interaction.player` are fields that no modelled method changes.
- `NpcHandle` and `InfoHandle` are opaque comparable values. `m_Interaction.infos` is not modelled. It is the list of infos the player can select, which `onAIProcessInfos` receives (DialogManager.h:187-192) and which the header names as the index space of `performChoice` (DialogManager.h:161). `functions` and `optionsSorted` are not modelled either.
