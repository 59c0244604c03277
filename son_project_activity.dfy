/** The project screen of the chronicle app (`com/sonfusion/app/ProjectActivity.kt`):
    the list of a project's chronicles, read from the names of the files in
    the project directory, and the actions that create, import, reorder,
    rename and delete chronicles by creating and renaming those files.

    The project directory is modelled as the set of the names of the files
    it holds; `listFiles()` failing is `None`. A rename is the POSIX one the
    platform performs: it does nothing when the source is missing and
    replaces an existing target. Dialogs, toasts, threads and the media
    player are not part of this model: what the user types and whether the
    player could be prepared are parameters. */
module SonProjectActivity {
  import opened Options
  import opened Numeric
  import opened Text
  import opened Sorting
  import opened ChronicleNames

  /** A chronicle: its `ddd_` prefix, its name, the audio file found for it,
      and its script `ddd_<name>.txt`. */
  datatype Chronicle = Chronicle(prefix: string, name: string, audioFile: Option<string>, scriptFile: string)

  /** The key a chronicle is listed under: its script's name without `.txt`. */
  function ScriptKey(c: Chronicle): string
  {
    RemoveSuffix(c.scriptFile, ".txt")
  }

  lemma RemoveAppended(k: string, t: string)
    ensures EndsWith(k + t, t) && RemoveSuffix(k + t, t) == k
  {
    assert (k + t)[|k + t| - |t|..] == t;
    assert (k + t)[..|k|] == k;
  }

  // ---------------------------------------------------------------------
  // refreshList
  // ---------------------------------------------------------------------

  /** The keys of the scripts: every `<key>.txt` of the directory. */
  function ScriptKeys(files: set<string>): set<string>
  {
    set n | n in files && EndsWith(n, ".txt") :: RemoveSuffix(n, ".txt")
  }

  lemma ScriptKeysOf(files: set<string>)
    ensures forall k :: k in ScriptKeys(files) <==> k + ".txt" in files
  {
    forall k
      ensures k in ScriptKeys(files) <==> k + ".txt" in files
    {
      RemoveAppended(k, ".txt");
      if k in ScriptKeys(files) {
        var n :| n in files && EndsWith(n, ".txt") && RemoveSuffix(n, ".txt") == k;
        assert n == k + ".txt";
      }
    }
  }

  /** The audio extensions looked for, in order of preference. */
  const AUDIO_EXTENSIONS: seq<string> := [".m4a", ".wav", ".mp3"]

  /** The audio of a key: `<key>.m4a`, else `<key>.wav`, else `<key>.mp3`,
      whichever exists first. */
  function AudioFor(files: set<string>, key: string): (r: Option<string>)
    ensures r.None? <==> forall e :: 0 <= e < 3 ==> key + AUDIO_EXTENSIONS[e] !in files
    ensures r.Some? ==>
      exists e :: 0 <= e < 3 && r.value == key + AUDIO_EXTENSIONS[e] && r.value in files
        && forall f :: 0 <= f < e ==> key + AUDIO_EXTENSIONS[f] !in files
  {
    assert AUDIO_EXTENSIONS[0] == ".m4a" && AUDIO_EXTENSIONS[1] == ".wav" && AUDIO_EXTENSIONS[2] == ".mp3";
    if key + ".m4a" in files then Some(key + ".m4a")
    else if key + ".wav" in files then Some(key + ".wav")
    else if key + ".mp3" in files then Some(key + ".mp3")
    else None
  }

  /** The chronicle listed for a key, when `^(\d{3}_)(.*)` matches it. */
  function ChronicleFor(files: set<string>, key: string): (r: Option<Chronicle>)
    ensures r.None? <==> !HasPrefix(key)
    ensures r.Some? ==>
      && ScriptKey(r.value) == key && r.value.scriptFile == key + ".txt"
      && r.value.audioFile == AudioFor(files, key)
      && Some((r.value.prefix, r.value.name)) == SplitKey(key)
  {
    RemoveAppended(key, ".txt");
    match SplitKey(key)
    case None => None
    case Some((prefix, name)) => Some(Chronicle(prefix, name, AudioFor(files, key), key + ".txt"))
  }

  /** The chronicles of the keys taken in order, keys without a prefix
      skipped. */
  function ChroniclesOf(files: set<string>, keys: seq<string>): (cs: seq<Chronicle>)
    ensures |cs| <= |keys|
    ensures forall c :: c in cs ==> ScriptKey(c) in keys && ChronicleFor(files, ScriptKey(c)) == Some(c)
    decreases |keys|
  {
    if keys == [] then []
    else
      var init := ChroniclesOf(files, keys[..|keys| - 1]);
      match ChronicleFor(files, keys[|keys| - 1])
      case None => init
      case Some(c) => init + [c]
  }

  lemma ChroniclesOfNext(files: set<string>, keys: seq<string>, i: nat)
    requires i < |keys|
    ensures ChroniclesOf(files, keys[..i + 1]) ==
      ChroniclesOf(files, keys[..i]) + match ChronicleFor(files, keys[i]) { case None => [] case Some(c) => [c] }
  {
    assert keys[..i + 1][..i] == keys[..i];
  }

  /** Every prefixed key gets its chronicle. */
  lemma {:induction false} ChroniclesOfComplete(files: set<string>, keys: seq<string>)
    ensures forall k :: k in keys && HasPrefix(k) ==>
      exists c :: c in ChroniclesOf(files, keys) && ScriptKey(c) == k
    decreases |keys|
  {
    if keys != [] {
      var init := keys[..|keys| - 1];
      ChroniclesOfComplete(files, init);
      forall k | k in keys && HasPrefix(k)
        ensures exists c :: c in ChroniclesOf(files, keys) && ScriptKey(c) == k
      {
        if k == keys[|keys| - 1] {
          var c := ChronicleFor(files, k).value;
          assert c in ChroniclesOf(files, keys);
        } else {
          assert k in init;
          var c :| c in ChroniclesOf(files, init) && ScriptKey(c) == k;
          assert c in ChroniclesOf(files, keys);
        }
      }
    }
  }

  /** Chronicles listed in strictly increasing order of key. */
  predicate KeyOrdered(cs: seq<Chronicle>)
  {
    forall i, j :: 0 <= i < j < |cs| ==> Less(Utf16Units, ScriptKey(cs[i]), ScriptKey(cs[j]))
  }

  /** Keys in increasing order give chronicles in increasing order of key. */
  lemma {:induction false} ChroniclesOfSorted(files: set<string>, keys: seq<string>)
    requires StrictlySorted(Utf16Units, keys)
    ensures KeyOrdered(ChroniclesOf(files, keys))
    decreases |keys|
  {
    if keys != [] {
      var init := keys[..|keys| - 1];
      var last := keys[|keys| - 1];
      ChroniclesOfSorted(files, init);
      var cs := ChroniclesOf(files, keys);
      var before := ChroniclesOf(files, init);
      if ChronicleFor(files, last).Some? {
        forall i | 0 <= i < |before|
          ensures Less(Utf16Units, ScriptKey(before[i]), last)
        {
          assert before[i] in before;
          var m :| 0 <= m < |init| && init[m] == ScriptKey(before[i]);
          assert keys[m] == init[m];
        }
        assert cs == before + [ChronicleFor(files, last).value];
        forall i, j | 0 <= i < j < |cs|
          ensures Less(Utf16Units, ScriptKey(cs[i]), ScriptKey(cs[j]))
        {
          if j < |before| {
            assert cs[i] == before[i] && cs[j] == before[j];
            assert Less(Utf16Units, ScriptKey(before[i]), ScriptKey(before[j]));
          } else {
            assert cs[i] == before[i] && ScriptKey(cs[j]) == last;
          }
        }
      } else {
        assert cs == before;
      }
    }
  }

  /** The list `refreshList` builds from a listing: the chronicles of the
      script keys in increasing order. */
  ghost function ChronicleList(listing: Option<set<string>>): seq<Chronicle>
  {
    match listing
    case None => []
    case Some(files) => ChroniclesOf(files, SortedListing(Utf16Units, ScriptKeys(files)))
  }

  /** The refreshed list is ordered by key, lists only scripts of the
      directory with the chronicle their key names, and lists every script
      whose name starts with a prefix. */
  lemma RefreshedList(files: set<string>)
    ensures var list := ChronicleList(Some(files));
      && KeyOrdered(list)
      && (forall c :: c in list ==> c.scriptFile in files && ChronicleFor(files, ScriptKey(c)) == Some(c))
      && (forall k :: k + ".txt" in files && HasPrefix(k) ==> exists c :: c in list && ScriptKey(c) == k)
  {
    var keys := SortedListing(Utf16Units, ScriptKeys(files));
    var list := ChroniclesOf(files, keys);
    assert list == ChronicleList(Some(files));
    ScriptKeysOf(files);
    ChroniclesOfSorted(files, keys);
    ChroniclesOfComplete(files, keys);
    forall c | c in list
      ensures c.scriptFile in files
    {
      assert ScriptKey(c) in ScriptKeys(files);
    }
    forall k | k + ".txt" in files && HasPrefix(k)
      ensures exists c :: c in list && ScriptKey(c) == k
    {
      assert k in ScriptKeys(files);
      assert k in keys;
    }
  }

  /** A script `<prefix><name>.txt` with a one-line name is listed as the
      chronicle of that prefix and name. */
  lemma ListedScript(files: set<string>, prefix: string, name: string)
    requires |prefix| == 4 && HasPrefix(prefix) && SingleLine(name)
    requires prefix + name + ".txt" in files
    ensures exists c :: c in ChronicleList(Some(files)) && c.prefix == prefix && c.name == name
                     && c.scriptFile == prefix + name + ".txt" && c.audioFile == AudioFor(files, prefix + name)
  {
    var key := prefix + name;
    RefreshedList(files);
    assert key[..3] == prefix[..3] && key[3] == '_';
    var c :| c in ChronicleList(Some(files)) && ScriptKey(c) == key;
    SplitKeyPrefixed(prefix, name);
  }

  // ---------------------------------------------------------------------
  // Renaming files
  // ---------------------------------------------------------------------

  /** `File.renameTo`: the file gets the new name, when it exists. */
  function Renamed(files: set<string>, from: string, to: string): set<string>
  {
    if from in files then files - {from} + {to} else files
  }

  /** The renames applied one after the other. */
  function ApplyRenames(files: set<string>, renames: seq<(string, string)>): set<string>
    decreases |renames|
  {
    if renames == [] then files
    else
      var last := renames[|renames| - 1];
      Renamed(ApplyRenames(files, renames[..|renames| - 1]), last.0, last.1)
  }

  lemma ApplyRenamesSnoc(files: set<string>, renames: seq<(string, string)>, r: (string, string))
    ensures ApplyRenames(files, renames + [r]) == Renamed(ApplyRenames(files, renames), r.0, r.1)
  {
    assert (renames + [r])[..|renames|] == renames;
  }

  /** `File.extension`: what follows the last dot, or nothing. */
  function Extension(fileName: string): string
  {
    AfterLast(fileName, '.', "")
  }

  // ---------------------------------------------------------------------
  // saveOrderOnDisk
  // ---------------------------------------------------------------------

  /** The renames `saveOrderOnDisk` plans for the item at `index`: nothing
      when its prefix is already that of its position; otherwise its script
      and its audio (keeping the extension), those that exist, are moved to
      the key made of the position's prefix and the item's name. */
  function ItemRenames(index: nat, item: Chronicle, files: set<string>): seq<(string, string)>
  {
    var newKey := Prefix(index) + item.name;
    if item.prefix == Prefix(index) then []
    else
      (if item.scriptFile in files then [(item.scriptFile, newKey + ".txt")] else [])
      + (if item.audioFile.Some? && item.audioFile.value in files
         then [(item.audioFile.value, newKey + "." + Extension(item.audioFile.value))] else [])
  }

  /** An item already at its position's prefix is left alone; otherwise at
      most its two files move, only files that exist, each to a name that
      starts with the new key: the script first to `<newKey>.txt`, the audio
      last to `<newKey>.<its own extension>`. */
  lemma ItemRenamesTargets(index: nat, item: Chronicle, files: set<string>)
    ensures var r := ItemRenames(index, item, files);
      && (item.prefix == Prefix(index) ==> r == [])
      && |r| <= 2
      && (forall k :: 0 <= k < |r| ==> r[k].0 in files && StartsWith(r[k].1, Prefix(index) + item.name))
      && (item.prefix != Prefix(index) && item.scriptFile in files ==>
            r != [] && r[0] == (item.scriptFile, Prefix(index) + item.name + ".txt"))
      && (item.prefix != Prefix(index) && item.audioFile.Some? && item.audioFile.value in files ==>
            r != [] && r[|r| - 1] == (item.audioFile.value,
                                      Prefix(index) + item.name + "." + Extension(item.audioFile.value)))
  {
    var newKey := Prefix(index) + item.name;
    assert (newKey + ".txt")[..|newKey|] == newKey;
    if item.audioFile.Some? {
      assert (newKey + "." + Extension(item.audioFile.value))[..|newKey|] == newKey;
    }
  }

  /** The renames planned for the whole list, position by position. */
  function RenamePlan(list: seq<Chronicle>, files: set<string>): seq<(string, string)>
    decreases |list|
  {
    if list == [] then []
    else RenamePlan(list[..|list| - 1], files) + ItemRenames(|list| - 1, list[|list| - 1], files)
  }

  lemma RenamePlanNext(list: seq<Chronicle>, files: set<string>, i: nat)
    requires i < |list|
    ensures RenamePlan(list[..i + 1], files) == RenamePlan(list[..i], files) + ItemRenames(i, list[i], files)
  {
    assert list[..i + 1][..i] == list[..i];
  }

  /** After the renames, the item at position `i` with a script has its
      script under the key of `i` and its name, which reads back as that
      prefix and that name. */
  lemma RenamedToPosition(list: seq<Chronicle>, files: set<string>, i: nat)
    requires i < |list| && i < 1000 && SingleLine(list[i].name)
    requires list[i].prefix != Prefix(i) && list[i].scriptFile in files
    ensures (list[i].scriptFile, Prefix(i) + list[i].name + ".txt") in RenamePlan(list, files)
    ensures SplitKey(Prefix(i) + list[i].name) == Some((Prefix(i), list[i].name))
  {
    PlanHoldsItem(list, files, i);
    SplitKeyRoundTrip(i, list[i].name);
  }

  lemma {:induction false} PlanHoldsItem(list: seq<Chronicle>, files: set<string>, i: nat)
    requires i < |list|
    ensures forall r :: r in ItemRenames(i, list[i], files) ==> r in RenamePlan(list, files)
    decreases |list|
  {
    var init := list[..|list| - 1];
    if i < |list| - 1 {
      PlanHoldsItem(init, files, i);
      assert init[i] == list[i];
    }
  }

  /** The keys the renames give, position prefix then name, sort in the
      order of the positions: reloading the directory lists the chronicles
      in the order the user dragged them to. */
  lemma NewKeysFollowPositions(list: seq<Chronicle>, i: nat, j: nat)
    requires i < j < |list| && |list| <= 1000
    ensures Less(Utf16Units, Prefix(i) + list[i].name, Prefix(j) + list[j].name)
  {
    PrefixOrder(Utf16Units, i, j, list[i].name, list[j].name);
  }

  /** The scripts of a directory: its `.txt` files. */
  function Scripts(files: set<string>): set<string>
  {
    set n | n in files && EndsWith(n, ".txt")
  }

  /** Moving a script to a script name: the old one is gone, the new one
      there. */
  lemma ScriptMoved(files: set<string>, from: string, to: string)
    requires from in files && EndsWith(from, ".txt") && EndsWith(to, ".txt")
    ensures Scripts(Renamed(files, from, to)) == Scripts(files) - {from} + {to}
  {
  }

  /** Moving a file that is not a script to a name that is not one leaves
      the scripts alone. */
  lemma OtherMoved(files: set<string>, from: string, to: string)
    requires !EndsWith(from, ".txt") && !EndsWith(to, ".txt")
    ensures Scripts(Renamed(files, from, to)) == Scripts(files)
  {
  }

  /** An audio file's name and its extension both end in a letter other
      than `t`, so neither it nor any `<key>.<its extension>` is a script. */
  predicate AudioLike(a: string)
  {
    var ext := Extension(a);
    |a| > 0 && a[|a| - 1] != 't' && |ext| > 0 && ext[|ext| - 1] != 't'
  }

  /** A chronicle listed under a one-line key: its script is
      `<prefix><name>.txt` with a `ddd_` prefix and a one-line name, and its
      audio is an audio file. */
  predicate WellFormed(c: Chronicle)
  {
    && c.scriptFile == c.prefix + c.name + ".txt"
    && |c.prefix| == 4 && HasPrefix(c.prefix) && SingleLine(c.name)
    && (c.audioFile.Some? ==> AudioLike(c.audioFile.value))
  }

  lemma AudioExtensionLike(key: string, ext: string)
    requires |ext| == 3 && '.' !in ext && ext[2] != 't'
    ensures AudioLike(key + "." + ext)
  {
    LastDotBeforeExtension(key, ext);
    var a := key + "." + ext;
    assert a[|a| - 1] == ext[2];
  }

  /** Whichever audio `AudioFor` finds is an audio file. */
  lemma AudioForLike(files: set<string>, key: string)
    requires AudioFor(files, key).Some?
    ensures AudioLike(AudioFor(files, key).value)
  {
    var a := AudioFor(files, key).value;
    if a == key + ".m4a" {
      assert a == key + "." + "m4a";
      AudioExtensionLike(key, "m4a");
    } else if a == key + ".wav" {
      assert a == key + "." + "wav";
      AudioExtensionLike(key, "wav");
    } else {
      assert a == key + "." + "mp3";
      AudioExtensionLike(key, "mp3");
    }
  }

  /** The chronicle of a one-line prefixed key is well formed. */
  lemma ChronicleForWellFormed(files: set<string>, key: string, c: Chronicle)
    requires ChronicleFor(files, key) == Some(c) && SingleLine(key)
    ensures WellFormed(c)
  {
    KeyPrefix(key);
    var rest := key[4..];
    assert SingleLine(rest) by {
      forall k | 0 <= k < |rest|
        ensures !IsLineTerminator(rest[k])
      {
        assert rest[k] == key[4 + k];
      }
    }
    LineOfSingleLine(rest);
    assert key == key[..4] + rest;
    if c.audioFile.Some? {
      AudioForLike(files, key);
    }
  }

  /** Every chronicle of the refreshed list with a one-line key is a script
      of the directory and well formed. */
  lemma ListedWellFormed(files: set<string>, c: Chronicle)
    requires c in ChronicleList(Some(files)) && SingleLine(ScriptKey(c))
    ensures c.scriptFile in files && WellFormed(c)
  {
    RefreshedList(files);
    ChronicleForWellFormed(files, ScriptKey(c), c);
  }

  /** Two scripts `<prefix><name>.txt` with four-character prefixes and
      different names are different files. */
  lemma ScriptNamesDiffer(p: string, a: string, q: string, b: string)
    requires |p| == 4 && |q| == 4 && a != b
    ensures p + a + ".txt" != q + b + ".txt"
  {
    var x := p + a + ".txt";
    var y := q + b + ".txt";
    assert x[4..|x| - 4] == a;
    assert y[4..|y| - 4] == b;
  }

  /** Renaming an audio file to `<key>.<its extension>` after some renames
      leaves the scripts as they were. */
  lemma AudioMoveLeavesScripts(start: set<string>, before: seq<(string, string)>, a: string, key: string)
    requires AudioLike(a)
    ensures Scripts(ApplyRenames(start, before + [(a, key + "." + Extension(a))]))
         == Scripts(ApplyRenames(start, before))
  {
    var ext := Extension(a);
    var at := key + "." + ext;
    assert at[|at| - 1] == ext[|ext| - 1];
    ApplyRenamesSnoc(start, before, (a, at));
    OtherMoved(ApplyRenames(start, before), a, at);
  }

  /** The renames of one well-formed item, its script still present, move
      its script to the script of its position and no other script. */
  lemma ItemMovesScript(start: set<string>, before: seq<(string, string)>, i: nat, c: Chronicle,
                        files: set<string>)
    requires WellFormed(c) && c.scriptFile in files && c.scriptFile in ApplyRenames(start, before)
    ensures Scripts(ApplyRenames(start, before + ItemRenames(i, c, files)))
         == Scripts(ApplyRenames(start, before)) - {c.scriptFile} + {Prefix(i) + c.name + ".txt"}
  {
    var newKey := Prefix(i) + c.name;
    var s := c.scriptFile;
    var t := newKey + ".txt";
    RemoveAppended(c.prefix + c.name, ".txt");
    RemoveAppended(newKey, ".txt");
    var moves := ItemRenames(i, c, files);
    if c.prefix == Prefix(i) {
      assert before + moves == before;
    } else {
      ApplyRenamesSnoc(start, before, (s, t));
      ScriptMoved(ApplyRenames(start, before), s, t);
      if c.audioFile.Some? && c.audioFile.value in files {
        var a := c.audioFile.value;
        var at := newKey + "." + Extension(a);
        assert moves == [(s, t), (a, at)];
        assert before + moves == (before + [(s, t)]) + [(a, at)];
        AudioMoveLeavesScripts(start, before + [(s, t)], a, newKey);
      } else {
        assert moves == [(s, t)];
      }
    }
  }

  /** The conditions under which renumbering keeps every chronicle: the list
      holds exactly the chronicles listed from the directory (in any order),
      at most 1000 of them, under one-line keys and different names. */
  ghost predicate Renumberable(files: set<string>, list: seq<Chronicle>)
  {
    && (forall c :: c in list <==> c in ChronicleList(Some(files)))
    && |list| <= 1000
    && (forall c :: c in list ==> SingleLine(ScriptKey(c)))
    && (forall i, j :: 0 <= i < j < |list| ==> list[i].name != list[j].name)
  }

  lemma RenumberableWellFormed(files: set<string>, list: seq<Chronicle>)
    requires Renumberable(files, list)
    ensures forall j :: 0 <= j < |list| ==> list[j].scriptFile in files && WellFormed(list[j])
  {
    forall j | 0 <= j < |list|
      ensures list[j].scriptFile in files && WellFormed(list[j])
    {
      assert list[j] in list;
      ListedWellFormed(files, list[j]);
    }
  }

  /** The scripts of the first `m` items before renumbering. */
  function OldScripts(list: seq<Chronicle>, m: nat): set<string>
    requires m <= |list|
  {
    set i | 0 <= i < m :: list[i].scriptFile
  }

  /** The scripts of the first `m` items after renumbering. */
  function NewScripts(list: seq<Chronicle>, m: nat): set<string>
    requires m <= |list|
  {
    set i | 0 <= i < m :: Prefix(i) + list[i].name + ".txt"
  }

  lemma ScriptsNext(list: seq<Chronicle>, i: nat)
    requires i < |list|
    ensures OldScripts(list, i + 1) == OldScripts(list, i) + {list[i].scriptFile}
    ensures NewScripts(list, i + 1) == NewScripts(list, i) + {Prefix(i) + list[i].name + ".txt"}
  {
  }

  /** Item `i`'s script is neither the old nor the new script of an earlier
      item, names being different. */
  lemma ScriptUntouched(list: seq<Chronicle>, i: nat)
    requires i < |list| <= 1000
    requires forall j :: 0 <= j < |list| ==> WellFormed(list[j])
    requires forall j, k :: 0 <= j < k < |list| ==> list[j].name != list[k].name
    ensures list[i].scriptFile !in OldScripts(list, i) && list[i].scriptFile !in NewScripts(list, i)
  {
    var c := list[i];
    forall j | 0 <= j < i
      ensures list[j].scriptFile != c.scriptFile && Prefix(j) + list[j].name + ".txt" != c.scriptFile
    {
      PrefixValue(j);
      ScriptNamesDiffer(list[j].prefix, list[j].name, c.prefix, c.name);
      ScriptNamesDiffer(Prefix(j), list[j].name, c.prefix, c.name);
    }
  }

  /** After the renames of the first `m` positions, their old scripts are
      replaced by the scripts of their positions, and no other script has
      moved. */
  lemma {:induction false} PlanPrefixScripts(files: set<string>, list: seq<Chronicle>, m: nat)
    requires Renumberable(files, list) && m <= |list|
    ensures Scripts(ApplyRenames(files, RenamePlan(list[..m], files)))
         == Scripts(files) - OldScripts(list, m) + NewScripts(list, m)
    decreases m
  {
    if m == 0 {
      assert list[..0] == [];
    } else {
      var i := m - 1;
      var s := list[i].scriptFile;
      PlanPrefixScripts(files, list, i);
      RenamePlanNext(list, files, i);
      RenumberableWellFormed(files, list);
      ScriptUntouched(list, i);
      ScriptsNext(list, i);
      RemoveAppended(list[i].prefix + list[i].name, ".txt");
      assert s in Scripts(ApplyRenames(files, RenamePlan(list[..i], files)));
      ItemMovesScript(files, RenamePlan(list[..i], files), i, list[i], files);
    }
  }

  /** A prefixed script left after renumbering is the new script of some
      position. */
  lemma RenumberedKeyIsNew(files: set<string>, list: seq<Chronicle>, k: string)
    requires Renumberable(files, list)
    requires k + ".txt" in Scripts(files) - OldScripts(list, |list|) + NewScripts(list, |list|)
    requires HasPrefix(k)
    ensures k + ".txt" in NewScripts(list, |list|)
  {
    RefreshedList(files);
  }

  /** A position's key names a script after renumbering, and it is
      prefixed. */
  lemma PositionKeyPresent(files: set<string>, list: seq<Chronicle>, after: set<string>, i: nat)
    requires i < |list| <= 1000
    requires Scripts(after) == Scripts(files) - OldScripts(list, |list|) + NewScripts(list, |list|)
    ensures var k := Prefix(i) + list[i].name; k + ".txt" in after && HasPrefix(k)
  {
    var k := Prefix(i) + list[i].name;
    assert k + ".txt" in NewScripts(list, |list|);
    PrefixValue(i);
    assert k[..3] == Prefix(i)[..3] && k[3] == Prefix(i)[3];
  }

  /** The prefixed script keys after renumbering are exactly the keys of the
      positions: `%03d_` of the position followed by the item's name. */
  lemma RenumberedKeys(files: set<string>, list: seq<Chronicle>, k: string)
    requires Renumberable(files, list)
    ensures var after := ApplyRenames(files, RenamePlan(list, files));
      (k in ScriptKeys(after) && HasPrefix(k)) <==> exists i :: 0 <= i < |list| && k == Prefix(i) + list[i].name
  {
    var after := ApplyRenames(files, RenamePlan(list, files));
    PlanPrefixScripts(files, list, |list|);
    assert list[..|list|] == list;
    ScriptKeysOf(after);
    if k in ScriptKeys(after) && HasPrefix(k) {
      RemoveAppended(k, ".txt");
      assert k + ".txt" in Scripts(after);
      RenumberedKeyIsNew(files, list, k);
      var i :| 0 <= i < |list| && k + ".txt" == Prefix(i) + list[i].name + ".txt";
      RemoveAppended(Prefix(i) + list[i].name, ".txt");
    }
    if exists i :: 0 <= i < |list| && k == Prefix(i) + list[i].name {
      var i :| 0 <= i < |list| && k == Prefix(i) + list[i].name;
      PositionKeyPresent(files, list, after, i);
    }
  }

  /** The keys of a list of chronicles, in order. */
  function KeysOf(cs: seq<Chronicle>): (ks: seq<string>)
    ensures |ks| == |cs| && forall i :: 0 <= i < |cs| ==> ks[i] == ScriptKey(cs[i])
  {
    seq(|cs|, i requires 0 <= i < |cs| => ScriptKey(cs[i]))
  }

  /** The keys of the positions: `%03d_` of the position then the name. */
  function PositionKeys(list: seq<Chronicle>): (ks: seq<string>)
    ensures |ks| == |list| && forall i :: 0 <= i < |list| ==> ks[i] == Prefix(i) + list[i].name
  {
    seq(|list|, i requires 0 <= i < |list| => Prefix(i) + list[i].name)
  }

  /** The relisted keys are the keys of the positions, in that order. */
  lemma RelistedKeys(files: set<string>, list: seq<Chronicle>)
    requires Renumberable(files, list)
    ensures KeysOf(ChronicleList(Some(ApplyRenames(files, RenamePlan(list, files))))) == PositionKeys(list)
  {
    var after := ApplyRenames(files, RenamePlan(list, files));
    var relisted := ChronicleList(Some(after));
    var got := KeysOf(relisted);
    var want := PositionKeys(list);
    RefreshedList(after);
    ScriptKeysOf(after);
    forall i, j | 0 <= i < j < |want|
      ensures Less(Utf16Units, want[i], want[j])
    {
      NewKeysFollowPositions(list, i, j);
    }
    forall k
      ensures k in got <==> k in want
    {
      RenumberedKeys(files, list, k);
      if k in got {
        var i :| 0 <= i < |got| && got[i] == k;
        assert relisted[i] in relisted;
      }
    }
    SortedUnique(Utf16Units, got, want);
  }

  /** Saving the order renumbers the chronicles so that reading the
      directory again lists them in the order of the list, each at its
      position's prefix and under its own name. */
  lemma SavedOrderRelisted(files: set<string>, list: seq<Chronicle>)
    requires Renumberable(files, list)
    ensures var relisted := ChronicleList(Some(ApplyRenames(files, RenamePlan(list, files))));
      && |relisted| == |list|
      && forall i :: 0 <= i < |list| ==> relisted[i].prefix == Prefix(i) && relisted[i].name == list[i].name
  {
    var after := ApplyRenames(files, RenamePlan(list, files));
    var relisted := ChronicleList(Some(after));
    RelistedKeys(files, list);
    RefreshedList(after);
    RenumberableWellFormed(files, list);
    forall i | 0 <= i < |list|
      ensures relisted[i].prefix == Prefix(i) && relisted[i].name == list[i].name
    {
      assert relisted[i] in relisted;
      assert ScriptKey(relisted[i]) == Prefix(i) + list[i].name;
      SplitKeyRoundTrip(i, list[i].name);
    }
  }

  /** `onRename` accepts a name another chronicle already has. Two
      chronicles named `A`, dragged so that `001_A` comes first, plan
      `001_A.txt -> 000_A.txt` and then `000_A.txt -> 001_A.txt`: the first
      rename replaces the other script, and one script is left. */
  lemma DuplicateNamesLoseScript()
    ensures var files := {"000_A.txt", "001_A.txt"};
      var list := [Chronicle("001_", "A", None, "001_A.txt"), Chronicle("000_", "A", None, "000_A.txt")];
      ApplyRenames(files, RenamePlan(list, files)) == {"001_A.txt"}
  {
    var files := {"000_A.txt", "001_A.txt"};
    var list := [Chronicle("001_", "A", None, "001_A.txt"), Chronicle("000_", "A", None, "000_A.txt")];
    var first := ("001_A.txt", "000_A.txt");
    var second := ("000_A.txt", "001_A.txt");
    SwappedPairPlan(files, list);
    assert RenamePlan(list, files) == [] + [first] + [second];
    ApplyRenamesSnoc(files, [], first);
    ApplyRenamesSnoc(files, [] + [first], second);
    assert Renamed(files, first.0, first.1) == {"000_A.txt"};
  }

  /** The plan for the two chronicles of `DuplicateNamesLoseScript`. */
  lemma SwappedPairPlan(files: set<string>, list: seq<Chronicle>)
    requires files == {"000_A.txt", "001_A.txt"}
    requires list == [Chronicle("001_", "A", None, "001_A.txt"), Chronicle("000_", "A", None, "000_A.txt")]
    ensures RenamePlan(list, files) == [] + [("001_A.txt", "000_A.txt")] + [("000_A.txt", "001_A.txt")]
  {
    FirstPrefixes();
    assert ItemRenames(0, list[0], files) == [("001_A.txt", "000_A.txt")];
    assert ItemRenames(1, list[1], files) == [("000_A.txt", "001_A.txt")];
    assert list[..0] == [] && list[..2] == list;
    RenamePlanNext(list, files, 0);
    RenamePlanNext(list, files, 1);
  }

  lemma FirstPrefixes()
    ensures Prefix(0) + "A" + ".txt" == "000_A.txt" && Prefix(0) != "001_"
    ensures Prefix(1) + "A" + ".txt" == "001_A.txt" && Prefix(1) != "000_"
  {
    PrefixValue(0);
    PrefixValue(1);
    assert Prefix(0) == "000_" && Prefix(1) == "001_";
  }

  /** The duplicate check `onRename` leaves out and the creation dialog
      makes: a new name is refused when another chronicle of the list
      already has it, ignoring case. */
  predicate RenameRefused(list: seq<Chronicle>, k: nat, newName: string,
                          sameIgnoringCase: (string, string) -> bool)
  {
    exists j :: 0 <= j < |list| && j != k && sameIgnoringCase(list[j].name, newName)
  }

  /** With that check, renaming keeps the names of the list different, which
      is what renumbering needs to keep every chronicle. */
  lemma {:induction false} CheckedRenameKeepsNamesDistinct(list: seq<Chronicle>, k: nat, newName: string,
                                                           sameIgnoringCase: (string, string) -> bool)
    requires k < |list|
    requires forall i, j :: 0 <= i < j < |list| ==> list[i].name != list[j].name
    requires forall n :: sameIgnoringCase(n, n)
    requires !RenameRefused(list, k, newName, sameIgnoringCase)
    ensures var renamed := list[k := list[k].(name := newName)];
      forall i, j :: 0 <= i < j < |renamed| ==> renamed[i].name != renamed[j].name
  {
    var renamed := list[k := list[k].(name := newName)];
    forall i, j | 0 <= i < j < |renamed|
      ensures renamed[i].name != renamed[j].name
    {
      if i == k {
        assert !sameIgnoringCase(list[j].name, newName);
      } else if j == k {
        assert !sameIgnoringCase(list[i].name, newName);
      }
    }
  }

  /** `Collections.swap(list, i, j)`. */
  function Swapped<T>(s: seq<T>, i: nat, j: nat): (r: seq<T>)
    requires i < |s| && j < |s|
    ensures |r| == |s| && r[i] == s[j] && r[j] == s[i]
    ensures forall k :: 0 <= k < |s| && k != i && k != j ==> r[k] == s[k]
  {
    s[i := s[j]][j := s[i]]
  }

  /** A swap only reorders: the same elements, as many times each. */
  lemma SwapPermutes<T>(s: seq<T>, i: nat, j: nat)
    requires i < |s| && j < |s|
    ensures multiset(Swapped(s, i, j)) == multiset(s)
  {
    var t := s[i := s[j]];
    assert multiset(t) == multiset(s) - multiset{s[i]} + multiset{s[j]};
    assert multiset(t[j := s[i]]) == multiset(t) - multiset{t[j]} + multiset{s[i]};
  }

  /** Swapping back restores the list. */
  lemma SwapUndoes<T>(s: seq<T>, i: nat, j: nat)
    requires i < |s| && j < |s|
    ensures Swapped(Swapped(s, i, j), i, j) == s
  {
    var t := Swapped(Swapped(s, i, j), i, j);
    assert forall k :: 0 <= k < |s| ==> t[k] == s[k];
  }

  // ---------------------------------------------------------------------
  // New chronicle, import, rename
  // ---------------------------------------------------------------------

  /** The characters of `[\p{L}0-9 _-]`, `isLetter` deciding `\p{L}`. */
  predicate NameChar(c: char, isLetter: char -> bool)
  {
    isLetter(c) || IsDigit(c) || c == ' ' || c == '_' || c == '-'
  }

  /** `trim()` then deletion of every character outside `[\p{L}0-9 _-]`. */
  /** The class `[\p{L}0-9 _-]` as a test. */
  function NameClass(isLetter: char -> bool): char -> bool
  {
    c => NameChar(c, isLetter)
  }

  function CleanName(input: string, isSpace: char -> bool, isLetter: char -> bool): (r: string)
    ensures forall k :: 0 <= k < |r| ==> NameChar(r[k], isLetter)
    ensures (forall k :: 0 <= k < |Trim(input, isSpace)| ==> NameChar(Trim(input, isSpace)[k], isLetter)) ==>
      r == Trim(input, isSpace)
  {
    Keep(Trim(input, isSpace), NameClass(isLetter))
  }

  /** Each character of the trimmed input is kept, in its place, exactly
      when it is allowed in a name. */
  lemma CleanNameKeepsAllowed(input: string, isSpace: char -> bool, isLetter: char -> bool,
                              a: string, c: char, b: string)
    requires Trim(input, isSpace) == a + [c] + b
    ensures CleanName(input, isSpace, isLetter)
         == Keep(a, NameClass(isLetter)) + (if NameChar(c, isLetter) then [c] else []) + Keep(b, NameClass(isLetter))
  {
    KeepAppend(a + [c], b, NameClass(isLetter));
    KeepAppend(a, [c], NameClass(isLetter));
    KeepOne(c, NameClass(isLetter));
  }

  /** A cleaned name is one line when no line terminator is a letter. */
  lemma CleanNameSingleLine(input: string, isSpace: char -> bool, isLetter: char -> bool)
    requires forall c :: IsLineTerminator(c) ==> !isLetter(c)
    ensures SingleLine(CleanName(input, isSpace, isLetter))
  {
  }

  /** What the "add" button of the new-chronicle dialog decides. */
  datatype NewChronicle = EmptyTitle | DuplicateName | CreateScript(scriptFile: string)

  /** An empty title is ignored; a cleaned name equal, ignoring case, to the
      name of a listed chronicle is refused; otherwise the script
      `<prefix of the list's size><name>.txt` is created. */
  function NewChronicleFor(list: seq<Chronicle>, input: string, isSpace: char -> bool,
                           isLetter: char -> bool, sameIgnoringCase: (string, string) -> bool): (r: NewChronicle)
    ensures r.EmptyTitle? <==> Trim(input, isSpace) == []
    ensures r.DuplicateName? <==>
      Trim(input, isSpace) != [] && exists c :: c in list && sameIgnoringCase(c.name, CleanName(input, isSpace, isLetter))
    ensures r.CreateScript? ==> r.scriptFile == Prefix(|list|) + CleanName(input, isSpace, isLetter) + ".txt"
  {
    var safeName := CleanName(input, isSpace, isLetter);
    if Trim(input, isSpace) == [] then EmptyTitle
    else if exists c :: c in list && sameIgnoringCase(c.name, safeName) then DuplicateName
    else CreateScript(Prefix(|list|) + safeName + ".txt")
  }

  /** A created script is listed, once the directory is read again, as a
      chronicle at the next position with the cleaned name. */
  lemma NewChronicleListed(list: seq<Chronicle>, files: set<string>, input: string, isSpace: char -> bool,
                           isLetter: char -> bool, sameIgnoringCase: (string, string) -> bool)
    requires NewChronicleFor(list, input, isSpace, isLetter, sameIgnoringCase).CreateScript?
    requires |list| < 1000 && forall c :: IsLineTerminator(c) ==> !isLetter(c)
    ensures var r := NewChronicleFor(list, input, isSpace, isLetter, sameIgnoringCase);
      exists c :: c in ChronicleList(Some(files + {r.scriptFile}))
        && c.prefix == Prefix(|list|) && c.name == CleanName(input, isSpace, isLetter)
        && c.scriptFile == r.scriptFile
  {
    PrefixValue(|list|);
    CleanNameSingleLine(input, isSpace, isLetter);
    var r := NewChronicleFor(list, input, isSpace, isLetter, sameIgnoringCase);
    ListedScript(files + {r.scriptFile}, Prefix(|list|), CleanName(input, isSpace, isLetter));
  }

  /** The characters of `[a-zA-Z0-9 ._-]`. */
  predicate ImportChar(c: char)
  {
    IsAsciiLetter(c) || IsDigit(c) || c == ' ' || c == '.' || c == '_' || c == '-'
  }

  /** The two files an import creates, and the name they share. */
  datatype Import = Import(name: string, audioFile: string, scriptFile: string)

  /** `importFileToProject`: the display name (`import` when the provider
      gives none) loses its last extension (`mp3` when it has no dot) and
      every character outside `[a-zA-Z0-9 ._-]`; a name already listed
      (ignoring case) gets `_<timestamp>` appended; audio and script are
      stored at the next position under that name. */
  function ImportFor(list: seq<Chronicle>, displayName: Option<string>, timestamp: nat,
                     sameIgnoringCase: (string, string) -> bool): (r: Import)
    ensures var fileName := if displayName.Some? then displayName.value else "import";
      var cleanName := Keep(BeforeLast(fileName, '.'), ImportChar);
      && (r.name == cleanName || r.name == cleanName + "_" + Decimal(timestamp))
      && (r.name == cleanName <==> forall c :: c in list ==> !sameIgnoringCase(c.name, cleanName))
      && r.audioFile == Prefix(|list|) + r.name + "." + AfterLast(fileName, '.', "mp3")
      && r.scriptFile == Prefix(|list|) + r.name + ".txt"
  {
    var fileName := if displayName.Some? then displayName.value else "import";
    var ext := AfterLast(fileName, '.', "mp3");
    var cleanName := Keep(BeforeLast(fileName, '.'), ImportChar);
    var finalName :=
      if exists c :: c in list && sameIgnoringCase(c.name, cleanName) then cleanName + "_" + Decimal(timestamp)
      else cleanName;
    assert finalName != cleanName ==> |finalName| > |cleanName|;
    Import(finalName, Prefix(|list|) + finalName + "." + ext, Prefix(|list|) + finalName + ".txt")
  }

  /** The imported name only holds characters of the class, digits and the
      underscore: one line, so the script is listed at the next position
      under that name, and an imported `.m4a` is found as its audio. */
  lemma ImportListed(list: seq<Chronicle>, files: set<string>, displayName: Option<string>, timestamp: nat,
                     sameIgnoringCase: (string, string) -> bool)
    requires |list| < 1000
    ensures var im := ImportFor(list, displayName, timestamp, sameIgnoringCase);
      var after := files + {im.audioFile, im.scriptFile};
      exists c :: c in ChronicleList(Some(after)) && c.prefix == Prefix(|list|) && c.name == im.name
        && c.scriptFile == im.scriptFile
        && (im.audioFile == Prefix(|list|) + im.name + ".m4a" ==> c.audioFile == Some(im.audioFile))
  {
    var im := ImportFor(list, displayName, timestamp, sameIgnoringCase);
    var after := files + {im.audioFile, im.scriptFile};
    ImportNameSingleLine(list, displayName, timestamp, sameIgnoringCase);
    PrefixValue(|list|);
    ListedScript(after, Prefix(|list|), im.name);
  }

  lemma ImportNameSingleLine(list: seq<Chronicle>, displayName: Option<string>, timestamp: nat,
                             sameIgnoringCase: (string, string) -> bool)
    ensures SingleLine(ImportFor(list, displayName, timestamp, sameIgnoringCase).name)
  {
    var name := ImportFor(list, displayName, timestamp, sameIgnoringCase).name;
    var fileName := if displayName.Some? then displayName.value else "import";
    var cleanName := Keep(BeforeLast(fileName, '.'), ImportChar);
    ImportCharsSingleLine(BeforeLast(fileName, '.'));
    if name != cleanName {
      DigitsSingleLine(Decimal(timestamp));
      SingleLineJoin(cleanName, '_', Decimal(timestamp));
    }
  }

  /** Only characters of `[a-zA-Z0-9 ._-]` are kept, and none ends a line. */
  lemma ImportCharsSingleLine(s: string)
    ensures SingleLine(Keep(s, ImportChar))
  {
    var kept := Keep(s, ImportChar);
    forall k | 0 <= k < |kept|
      ensures !IsLineTerminator(kept[k])
    {
      assert ImportChar(kept[k]);
    }
  }

  /** A run of digits is a single line. */
  lemma DigitsSingleLine(digits: string)
    requires AllDigits(digits)
    ensures SingleLine(digits)
  {
    forall k | 0 <= k < |digits|
      ensures !IsLineTerminator(digits[k])
    {
      assert IsDigit(digits[k]);
    }
  }

  /** The renames of `onRename`, when the cleaned name is not empty and
      differs from the chronicle's: script and audio keep the prefix and
      take the new name, the audio keeping its extension. */
  function RenameFiles(item: Chronicle, newName: string): (r: seq<(string, string)>)
    ensures |r| >= 1 && r[0] == (item.scriptFile, item.prefix + newName + ".txt")
    ensures |r| == 2 <==> item.audioFile.Some?
    ensures |r| <= 2
  {
    var newBase := item.prefix + newName;
    [(item.scriptFile, newBase + ".txt")]
      + match item.audioFile
        case None => []
        case Some(a) => [(a, newBase + "." + Extension(a))]
  }

  /** A listed chronicle renamed to a one-line name is listed again under the
      same prefix with the new name. */
  lemma RenameListed(files: set<string>, item: Chronicle, newName: string)
    requires item in ChronicleList(Some(files)) && SingleLine(newName)
    ensures exists c :: c in ChronicleList(Some(ApplyRenames(files, RenameFiles(item, newName))))
                     && c.prefix == item.prefix && c.name == newName
  {
    RefreshedList(files);
    var key := ScriptKey(item);
    assert ChronicleFor(files, key) == Some(item);
    KeyPrefix(key);
    var newScript := item.prefix + newName + ".txt";
    assert newScript[|newScript| - 4..] == ".txt";
    var renames := RenameFiles(item, newName);
    var once := Renamed(files, item.scriptFile, newScript);
    assert newScript in once;
    ApplyRenamesSnoc(files, [], renames[0]);
    assert [] + [renames[0]] == [renames[0]];
    var after := ApplyRenames(files, renames);
    if item.audioFile.Some? {
      assert renames == [renames[0]] + [renames[1]];
      ApplyRenamesSnoc(files, [renames[0]], renames[1]);
      var a := item.audioFile.value;
      assert a != newScript by {
        AudioNotScript(files, key, newScript);
      }
    } else {
      assert renames == [renames[0]];
    }
    assert newScript in after;
    ListedScript(after, item.prefix, newName);
  }

  lemma KeyPrefix(key: string)
    requires HasPrefix(key)
    ensures |key[..4]| == 4 && HasPrefix(key[..4])
  {
    assert key[..4][..3] == key[..3];
  }

  /** An audio file found for a key never ends like a script. */
  lemma AudioNotScript(files: set<string>, key: string, script: string)
    requires AudioFor(files, key).Some? && EndsWith(script, ".txt")
    ensures AudioFor(files, key).value != script
  {
    var a := AudioFor(files, key).value;
    assert a[|a| - 1] != 't';
    assert script[|script| - 1] == 't';
  }

  /** The directory once a chronicle's script and audio are deleted. */
  function Deleted(files: set<string>, item: Chronicle): (r: set<string>)
    ensures item.scriptFile !in r && (item.audioFile.Some? ==> item.audioFile.value !in r)
    ensures forall f :: f in files && f != item.scriptFile && item.audioFile != Some(f) ==> f in r
    ensures r <= files
  {
    files - {item.scriptFile} - (if item.audioFile.Some? then {item.audioFile.value} else {})
  }

  // ---------------------------------------------------------------------
  // Export
  // ---------------------------------------------------------------------

  /** `chronicleList.mapNotNull { it.audioFile }`: the audio files of the
      list, in list order. */
  function FilesToMerge(list: seq<Chronicle>): seq<string>
    decreases |list|
  {
    if list == [] then []
    else
      var last := list[|list| - 1];
      FilesToMerge(list[..|list| - 1]) + (if last.audioFile.Some? then [last.audioFile.value] else [])
  }

  /** The files merged are exactly the audio files of the list. */
  lemma {:induction false} FilesToMergeMembers(list: seq<Chronicle>)
    ensures |FilesToMerge(list)| <= |list|
    ensures forall i :: 0 <= i < |list| && list[i].audioFile.Some? ==> list[i].audioFile.value in FilesToMerge(list)
    ensures forall f :: f in FilesToMerge(list) ==> exists i :: 0 <= i < |list| && list[i].audioFile == Some(f)
    decreases |list|
  {
    if list != [] {
      var init := list[..|list| - 1];
      var last := list[|list| - 1];
      FilesToMergeMembers(init);
      var r := FilesToMerge(list);
      assert r == FilesToMerge(init) + (if last.audioFile.Some? then [last.audioFile.value] else []);
      forall i | 0 <= i < |list| && list[i].audioFile.Some?
        ensures list[i].audioFile.value in r
      {
        if i < |init| {
          assert list[i] == init[i];
        }
      }
      forall f | f in r
        ensures exists i :: 0 <= i < |list| && list[i].audioFile == Some(f)
      {
        if f in FilesToMerge(init) {
          var i :| 0 <= i < |init| && init[i].audioFile == Some(f);
          assert list[i] == init[i];
        } else {
          assert list[|list| - 1].audioFile == Some(f);
        }
      }
    }
  }

  /** With an audio file for every chronicle, the merge takes exactly those,
      one per chronicle and in list order. */
  lemma {:induction false} MergeTakesEveryAudio(list: seq<Chronicle>)
    requires forall c :: c in list ==> c.audioFile.Some?
    ensures |FilesToMerge(list)| == |list|
    ensures forall i :: 0 <= i < |list| ==> FilesToMerge(list)[i] == list[i].audioFile.value
    decreases |list|
  {
    if list != [] {
      var init := list[..|list| - 1];
      assert forall c :: c in init ==> c in list;
      MergeTakesEveryAudio(init);
      var last := list[|list| - 1];
      assert last in list;
      assert last.audioFile.Some?;
      var r := FilesToMerge(list);
      assert r == FilesToMerge(init) + [last.audioFile.value];
      forall i | 0 <= i < |list|
        ensures r[i] == list[i].audioFile.value
      {
        if i < |init| {
          assert r[i] == FilesToMerge(init)[i] && list[i] == init[i];
        }
      }
    }
  }

  /** `performMerge`: nothing to export without audio; otherwise the audio
      files to merge. */
  function MergeRequest(list: seq<Chronicle>): (r: Option<seq<string>>)
    ensures r.None? <==> forall c :: c in list ==> c.audioFile.None?
    ensures r.Some? ==> r.value == FilesToMerge(list) && r.value != []
  {
    var files := FilesToMerge(list);
    FilesToMergeMembers(list);
    if files == [] then
      assert forall c :: c in list ==> c.audioFile.None? by {
        forall c | c in list
          ensures c.audioFile.None?
        {
          var i :| 0 <= i < |list| && list[i] == c;
        }
      }
      None
    else
      assert files[0] in files;
      Some(files)
  }

  /** `replace(Regex("[^a-zA-Z0-9.-]"), "_")` on the project name once its
      accents are stripped: every other character becomes `_`. */
  function SafeProjectName(s: string): (r: string)
    ensures |r| == |s|
    ensures forall k :: 0 <= k < |s| ==> r[k] == if IsAsciiLetter(s[k]) || IsDigit(s[k]) || s[k] == '.' || s[k] == '-' then s[k] else '_'
    decreases |s|
  {
    if s == [] then []
    else
      var c := if IsAsciiLetter(s[0]) || IsDigit(s[0]) || s[0] == '.' || s[0] == '-' then s[0] else '_';
      [c] + SafeProjectName(s[1..])
  }

  /** The exported file's name: `<safe project name>_<yyyyMMdd_HHmmss>.m4a`. */
  function ExportName(projectName: string, stripAccents: string -> string, stamp: string): (r: string)
    ensures EndsWith(r, ".m4a")
    ensures StartsWith(r, SafeProjectName(stripAccents(projectName)) + "_" + stamp)
  {
    var base := SafeProjectName(stripAccents(projectName)) + "_" + stamp;
    var r := base + ".m4a";
    assert r[|r| - 4..] == ".m4a" && r[..|base|] == base;
    r
  }

  // ---------------------------------------------------------------------
  // Preview playback and recording
  // ---------------------------------------------------------------------

  /** What a tap on a chronicle's play/record button does. */
  datatype RecordOrPlay =
    | StoppedPreview
    | PlayingPreview(file: string)
    | PreviewFailed
    | LaunchRecorder(name: string, prefix: string, scriptFile: string)

  class ProjectActivity {
    var chronicleList: seq<Chronicle>
    var currentPlayingFile: Option<string>

    constructor()
      ensures chronicleList == [] && currentPlayingFile.None?
    {
      chronicleList := [];
      currentPlayingFile := None;
    }

    /** `refreshList`: the list is rebuilt from the directory listing, keys
        in increasing order; an unreadable directory leaves it empty. */
    method RefreshList(listing: Option<set<string>>)
      modifies this
      ensures chronicleList == ChronicleList(listing)
      ensures currentPlayingFile == old(currentPlayingFile)
    {
      chronicleList := [];
      if listing.None? {
        return;
      }
      var files := listing.value;
      var sortedKeys := SortedKeys(files);
      chronicleList := ReadChronicles(files, sortedKeys);
    }

    /** The loop of `refreshList`: one chronicle per key that starts with a
        prefix, in the order of the keys. */
    static method ReadChronicles(files: set<string>, sortedKeys: seq<string>) returns (list: seq<Chronicle>)
      ensures list == ChroniclesOf(files, sortedKeys)
    {
      list := [];
      for i := 0 to |sortedKeys|
        invariant list == ChroniclesOf(files, sortedKeys[..i])
      {
        ChroniclesOfNext(files, sortedKeys, i);
        var key := sortedKeys[i];
        var audioFile := AudioFor(files, key);
        match SplitKey(key) {
          case Some((prefix, name)) =>
            list := list + [Chronicle(prefix, name, audioFile, key + ".txt")];
          case None =>
        }
      }
      assert sortedKeys[..|sortedKeys|] == sortedKeys;
    }

    /** `map.keys.sorted()`: the script keys in increasing order. */
    static method SortedKeys(files: set<string>) returns (keys: seq<string>)
      ensures keys == SortedListing(Utf16Units, ScriptKeys(files))
    {
      keys := SortSet(Utf16Units, ScriptKeys(files));
    }

    /** The "add" button of the new-chronicle dialog: the script is created
        when missing and the list read again. */
    method AddChronicle(files: set<string>, input: string, isSpace: char -> bool, isLetter: char -> bool,
                        sameIgnoringCase: (string, string) -> bool)
      returns (r: NewChronicle, after: set<string>)
      modifies this
      ensures r == NewChronicleFor(old(chronicleList), input, isSpace, isLetter, sameIgnoringCase)
      ensures r.CreateScript? ==> after == files + {r.scriptFile} && chronicleList == ChronicleList(Some(after))
      ensures !r.CreateScript? ==> after == files && chronicleList == old(chronicleList)
      ensures currentPlayingFile == old(currentPlayingFile)
    {
      r := NewChronicleFor(chronicleList, input, isSpace, isLetter, sameIgnoringCase);
      after := files;
      if r.CreateScript? {
        if r.scriptFile !in files {
          after := files + {r.scriptFile};
        }
        RefreshList(Some(after));
      }
    }

    /** `onMove`: the two positions of the list are swapped. */
    method OnMove(fromPos: nat, toPos: nat)
      requires fromPos < |chronicleList| && toPos < |chronicleList|
      modifies this
      ensures chronicleList == Swapped(old(chronicleList), fromPos, toPos)
      ensures currentPlayingFile == old(currentPlayingFile)
    {
      var moved := chronicleList[fromPos];
      chronicleList := chronicleList[fromPos := chronicleList[toPos]][toPos := moved];
    }

    /** `saveOrderOnDisk`: the renames are planned position by position, then
        applied in order, and the list read again. */
    method SaveOrderOnDisk(files: set<string>) returns (after: set<string>)
      modifies this
      ensures after == ApplyRenames(files, RenamePlan(old(chronicleList), files))
      ensures chronicleList == ChronicleList(Some(after))
      ensures currentPlayingFile == old(currentPlayingFile)
    {
      var tempRenames := PlanRenames(chronicleList, files);
      after := RenameAll(files, tempRenames);
      RefreshList(Some(after));
    }

    /** The first loop of `saveOrderOnDisk`: the renames of every position. */
    static method PlanRenames(list: seq<Chronicle>, files: set<string>) returns (tempRenames: seq<(string, string)>)
      ensures tempRenames == RenamePlan(list, files)
    {
      tempRenames := [];
      for index := 0 to |list|
        invariant tempRenames == RenamePlan(list[..index], files)
      {
        RenamePlanNext(list, files, index);
        var item := list[index];
        var newPrefix := Prefix(index);
        var newKey := newPrefix + item.name;
        var moves: seq<(string, string)> := [];
        if item.prefix != newPrefix {
          if item.scriptFile in files {
            moves := [(item.scriptFile, newKey + ".txt")];
          }
          if item.audioFile.Some? && item.audioFile.value in files {
            moves := moves + [(item.audioFile.value, newKey + "." + Extension(item.audioFile.value))];
          }
        }
        assert moves == ItemRenames(index, item, files);
        tempRenames := tempRenames + moves;
      }
      assert list[..|list|] == list;
    }

    /** The second loop of `saveOrderOnDisk`: the renames, one after the
        other. */
    static method RenameAll(files: set<string>, renames: seq<(string, string)>) returns (after: set<string>)
      ensures after == ApplyRenames(files, renames)
    {
      after := files;
      for k := 0 to |renames|
        invariant after == ApplyRenames(files, renames[..k])
      {
        assert renames[..k + 1] == renames[..k] + [renames[k]];
        ApplyRenamesSnoc(files, renames[..k], renames[k]);
        after := Renamed(after, renames[k].0, renames[k].1);
      }
      assert renames[..|renames|] == renames;
    }

    /** `importFileToProject`: the audio is copied when the content can be
        opened, the script created when missing, and the list read again. */
    method ImportFile(files: set<string>, displayName: Option<string>, readable: bool, timestamp: nat,
                      sameIgnoringCase: (string, string) -> bool)
      returns (after: set<string>)
      modifies this
      ensures var im := ImportFor(old(chronicleList), displayName, timestamp, sameIgnoringCase);
        after == files + (if readable then {im.audioFile} else {}) + {im.scriptFile}
      ensures chronicleList == ChronicleList(Some(after))
      ensures currentPlayingFile == old(currentPlayingFile)
    {
      var im := ImportFor(chronicleList, displayName, timestamp, sameIgnoringCase);
      after := files;
      if readable {
        after := after + {im.audioFile};
      }
      if im.scriptFile !in after {
        after := after + {im.scriptFile};
      }
      RefreshList(Some(after));
    }

    /** `onRename`: an empty or unchanged cleaned name does nothing;
        otherwise script and audio are renamed and the list read again. */
    method OnRename(files: set<string>, item: Chronicle, input: string, isSpace: char -> bool,
                    isLetter: char -> bool)
      returns (after: set<string>)
      modifies this
      ensures var newName := CleanName(input, isSpace, isLetter);
        && (newName == [] || newName == item.name ==> after == files && chronicleList == old(chronicleList))
        && (newName != [] && newName != item.name ==>
              after == ApplyRenames(files, RenameFiles(item, newName)) && chronicleList == ChronicleList(Some(after)))
      ensures currentPlayingFile == old(currentPlayingFile)
    {
      var newName := CleanName(input, isSpace, isLetter);
      after := files;
      if newName != [] && newName != item.name {
        ghost var renames := RenameFiles(item, newName);
        ApplyRenamesSnoc(files, [], renames[0]);
        assert [] + [renames[0]] == [renames[0]];
        after := Renamed(after, item.scriptFile, item.prefix + newName + ".txt");
        if item.audioFile.Some? {
          assert renames == [renames[0]] + [renames[1]];
          ApplyRenamesSnoc(files, [renames[0]], renames[1]);
          after := Renamed(after, item.audioFile.value, item.prefix + newName + "." + Extension(item.audioFile.value));
        } else {
          assert renames == [renames[0]];
        }
        RefreshList(Some(after));
      }
    }

    /** `onDelete`: script and audio are deleted, the list read again and
        the remaining chronicles renumbered. */
    method OnDelete(files: set<string>, item: Chronicle) returns (after: set<string>)
      modifies this
      ensures var remaining := Deleted(files, item);
        && after == ApplyRenames(remaining, RenamePlan(ChronicleList(Some(remaining)), remaining))
        && chronicleList == ChronicleList(Some(after))
      ensures currentPlayingFile == old(currentPlayingFile)
    {
      var remaining := files - {item.scriptFile};
      if item.audioFile.Some? {
        remaining := remaining - {item.audioFile.value};
      }
      assert remaining == Deleted(files, item);
      RefreshList(Some(remaining));
      after := SaveOrderOnDisk(remaining);
    }

    /** `onRecordOrPlay`: with an existing audio file, a tap stops the
        preview of that file or starts one (`playable` saying whether the
        player could be prepared); without one, the recorder is launched
        for the chronicle. */
    method OnRecordOrPlay(files: set<string>, item: Chronicle, playable: bool) returns (r: RecordOrPlay)
      modifies this
      ensures chronicleList == old(chronicleList)
      ensures item.audioFile.None? || item.audioFile.value !in files ==>
        r == LaunchRecorder(item.name, item.prefix, item.scriptFile) && currentPlayingFile == old(currentPlayingFile)
      ensures item.audioFile.Some? && item.audioFile.value in files && old(currentPlayingFile) == item.audioFile ==>
        r == StoppedPreview && currentPlayingFile.None?
      ensures item.audioFile.Some? && item.audioFile.value in files && old(currentPlayingFile) != item.audioFile ==>
        (if playable then r == PlayingPreview(item.audioFile.value) && currentPlayingFile == item.audioFile
         else r == PreviewFailed && currentPlayingFile.None?)
    {
      if item.audioFile.Some? && item.audioFile.value in files {
        if currentPlayingFile == item.audioFile {
          StopPreview();
          r := StoppedPreview;
        } else {
          StopPreview();
          if playable {
            currentPlayingFile := item.audioFile;
            r := PlayingPreview(item.audioFile.value);
          } else {
            r := PreviewFailed;
          }
        }
      } else {
        r := LaunchRecorder(item.name, item.prefix, item.scriptFile);
      }
    }

    /** `stopPreview`: no file is playing any more. */
    method StopPreview()
      modifies this
      ensures currentPlayingFile.None? && chronicleList == old(chronicleList)
    {
      currentPlayingFile := None;
    }

    /** `isFilePlaying`: the file is the one being previewed. */
    function IsFilePlaying(file: Option<string>): bool
      reads this
    {
      file.Some? && file == currentPlayingFile
    }
  }

  /** Two taps on the same existing audio start and then stop its preview. */
  method TapTwice(activity: ProjectActivity, files: set<string>, item: Chronicle)
    requires item.audioFile.Some? && item.audioFile.value in files
    requires !activity.IsFilePlaying(item.audioFile)
    modifies activity
    ensures activity.chronicleList == old(activity.chronicleList)
    ensures !activity.IsFilePlaying(item.audioFile) && activity.currentPlayingFile.None?
  {
    var first := activity.OnRecordOrPlay(files, item, true);
    assert activity.IsFilePlaying(item.audioFile);
    var second := activity.OnRecordOrPlay(files, item, true);
    assert second == StoppedPreview;
  }
}
