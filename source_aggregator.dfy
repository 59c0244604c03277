/** `create_synthese_file_for_IA.py`: for each entry of a fixed compilation table, collect
    the files of a folder (recursively when the folder pattern holds a `*`,
    else the immediate entries) whose names end with one of the entry's
    extensions, and write them one after the other as header-plus-content
    records into one text file under `tmp_IA`. The file system is a value:
    `glob`, `isfile`, `isdir`, `listdir` and reading are given functions. */
module SourceAggregator {
  import opened Options
  import opened Text
  import opened Sorting

  /** The outcome of reading one file: its text, or the message of the
      exception raised. */
  datatype ReadResult = Content(text: string) | Failure(message: string)

  /** What the script sees of the file system: `glob.glob(pattern,
      recursive=True)`, `os.path.isfile`, `os.path.isdir`, `os.listdir` and
      `open(...).read()`. */
  datatype FileSystem = FileSystem(
    glob: string -> seq<string>,
    isFile: string -> bool,
    isDir: string -> bool,
    listDir: string -> seq<string>,
    read: string -> ReadResult)

  /** The `extension` entry of a task: one string or a list of strings. */
  datatype Extension = Single(ext: string) | Many(exts: seq<string>)

  /** One entry of the compilation table (`taches_de_compilation`): output file name, folder, extension(s). */
  datatype Task = Task(output: string, folder: string, extension: Extension)

  /** What one call of `compiler_fichiers_par_dossier` does: nothing because
      the folder does not exist, nothing because no file matched, or writes
      `contents` to the file at `path`. */
  datatype Outcome = MissingDirectory | NoMatches | Written(path: string, contents: string)

  const ROOT_DIR: string := "."
  const OUTPUT_DIR: string := "tmp_IA"
  const DIVIDER: string := "******************"
  const READ_ERROR: string := "Erreur lors de la lecture du fichier : "

  /** `os.path.join(a, b)` on POSIX: `b` alone when it is absolute, otherwise
      `a` and `b` with one separator between them (none after an empty `a` or
      one already ending in `/`). */
  function Join(a: string, b: string): (r: string)
    ensures StartsWith(b, "/") ==> r == b
    ensures !StartsWith(b, "/") ==> EndsWith(r, b)
  {
    if StartsWith(b, "/") then b else a + Separator(a) + b
  }

  /** What `os.path.join` puts after a directory: nothing after an empty one
      or one already ending in `/`, otherwise `/`. */
  function Separator(a: string): string
  {
    if a == [] || EndsWith(a, "/") then "" else "/"
  }

  /** The compilation table, in its order. */
  const TASKS: seq<Task> := [
    Task("all_html.txt", ".", Single(".html")),
    Task("all_html_templates.txt", "templates", Single(".html")),
    Task("all_css.txt", "css", Single(".css")),
    Task("all_js.txt", "js", Single(".js")),
    Task("all_texts_js.txt", Join("js", "texts"), Single(".js")),
    Task("all_php.txt", "api", Single(".php")),
    Task("all_cpp.txt", ".", Single(".cpp")),
    Task("all_h.txt", ".", Single(".h")),
    Task("all_ui.txt", ".", Single(".ui")),
    Task("all_qrc.txt", ".", Single(".qrc")),
    Task("all_pro.txt", ".", Single(".pro")),
    Task("all_plist.txt", ".", Single(".plist")),
    Task("all_kt_java_xml.txt", "app/src/*", Many([".java", ".xml", ".kt"])),
    Task("all_gradle.txt", "./*", Many([".gradle"]))
  ]

  /** The extension entry as a list: a single string becomes a one-element
      list, a list is used as given. */
  function Extensions(e: Extension): (r: seq<string>)
    ensures e.Single? ==> r == [e.ext]
    ensures e.Many? ==> r == e.exts
  {
    match e
    case Single(x) => [x]
    case Many(xs) => xs
  }

  /** The folder pattern of recursive mode: a trailing slash-star becomes
      slash-star-star-slash-star, so that `glob` descends into subfolders. */
  function RewritePattern(folder: string): (r: string)
  {
    if EndsWith(folder, "/*") then folder[..|folder| - 2] + "/**/*" else folder
  }

  /** The rewrite keeps the folder before the trailing slash-star and makes
      the pattern end in the recursive wildcard; any other pattern is left
      alone. */
  lemma RewritePatternMeaning(folder: string)
    ensures EndsWith(folder, "/*") ==>
      && EndsWith(RewritePattern(folder), "/**/*")
      && RewritePattern(folder)[..|folder| - 2] == folder[..|folder| - 2]
      && |RewritePattern(folder)| == |folder| + 3
    ensures !EndsWith(folder, "/*") ==> RewritePattern(folder) == folder
  {
    if EndsWith(folder, "/*") {
      var r := RewritePattern(folder);
      assert r[|r| - 5..] == "/**/*";
    }
  }

  /** `[f for f in glob.glob(motif) if os.path.isfile(f)]`, as a set. */
  function GlobFiles(fs: FileSystem, motif: string): set<string>
  {
    set f | f in fs.glob(motif) && fs.isFile(f)
  }

  /** The regular files matched by `glob` for the first `|exts|` extensions:
      what `fichiers_trouves` holds after that many rounds of `update`. */
  function Matched(fs: FileSystem, base: string, pattern: string, exts: seq<string>): (found: set<string>)
    ensures forall f :: f in found <==>
      exists k :: 0 <= k < |exts| && f in fs.glob(Join(base, pattern) + exts[k]) && fs.isFile(f)
  {
    if exts == [] then {}
    else
      var n := |exts| - 1;
      var before := Matched(fs, base, pattern, exts[..n]);
      var result := before + GlobFiles(fs, Join(base, pattern) + exts[n]);
      assert forall k :: 0 <= k < n ==> exts[..n][k] == exts[k];
      result
  }

  /** Recursive mode: for each extension, `glob` the pattern followed by the
      extension and keep the regular files; the union is returned sorted. */
  method RecursiveMatches(fs: FileSystem, base: string, pattern: string, exts: seq<string>)
    returns (found: seq<string>)
    ensures StrictlySorted(CodePoints, found)
    ensures forall f :: f in found <==>
      exists k :: 0 <= k < |exts| && f in fs.glob(Join(base, pattern) + exts[k]) && fs.isFile(f)
    ensures found == SortedListing(CodePoints, Matched(fs, base, pattern, exts))
  {
    var acc: set<string> := {};
    for k := 0 to |exts|
      invariant acc == Matched(fs, base, pattern, exts[..k])
    {
      MatchedNext(fs, base, pattern, exts, k);
      var motif := Join(base, pattern) + exts[k];
      acc := acc + GlobFiles(fs, motif);
    }
    assert exts[..|exts|] == exts;
    found := SortSet(CodePoints, acc);
  }

  /** One more extension adds the files its `glob` matches. */
  lemma MatchedNext(fs: FileSystem, base: string, pattern: string, exts: seq<string>, k: nat)
    requires k < |exts|
    ensures Matched(fs, base, pattern, exts[..k + 1])
         == Matched(fs, base, pattern, exts[..k]) + GlobFiles(fs, Join(base, pattern) + exts[k])
  {
    assert exts[..k + 1][..k] == exts[..k];
  }

  /** `any(name.endswith(ext) for ext in exts)`. */
  predicate EndsWithAny(name: string, exts: seq<string>)
  {
    exists k :: 0 <= k < |exts| && EndsWith(name, exts[k])
  }

  /** Flat mode keeps `name` of `dir`: it ends with one of the extensions
      and its joined path is a regular file. */
  predicate Kept(fs: FileSystem, dir: string, exts: seq<string>, name: string)
  {
    EndsWithAny(name, exts) && fs.isFile(Join(dir, name))
  }

  /** Flat mode over the listing `names` of `dir`: the joined path of every
      name that ends with one of the extensions and is a regular file, in
      listing order. */
  function FlatSelection(fs: FileSystem, dir: string, exts: seq<string>, names: seq<string>): (found: seq<string>)
    ensures |found| <= |names|
  {
    if names == [] then []
    else
      var n := |names| - 1;
      FlatSelection(fs, dir, exts, names[..n])
        + if Kept(fs, dir, exts, names[n]) then [Join(dir, names[n])] else []
  }

  /** A path is selected exactly when it is the joined path of a listed name
      that ends with one of the extensions and names a regular file. */
  lemma FlatSelectionMembers(fs: FileSystem, dir: string, exts: seq<string>, names: seq<string>)
    ensures forall p :: p in FlatSelection(fs, dir, exts, names) <==>
      exists i :: 0 <= i < |names| && Kept(fs, dir, exts, names[i]) && p == Join(dir, names[i])
  {
    forall p
      ensures p in FlatSelection(fs, dir, exts, names) <==>
        exists i :: 0 <= i < |names| && Kept(fs, dir, exts, names[i]) && p == Join(dir, names[i])
    {
      if p in FlatSelection(fs, dir, exts, names) {
        var i := SelectedFrom(fs, dir, exts, names, p);
      }
      if exists i :: 0 <= i < |names| && Kept(fs, dir, exts, names[i]) && p == Join(dir, names[i]) {
        var i :| 0 <= i < |names| && Kept(fs, dir, exts, names[i]) && p == Join(dir, names[i]);
        KeptIsSelected(fs, dir, exts, names, i);
      }
    }
  }

  /** Every selected path comes from a kept name of the listing. */
  lemma {:induction false} SelectedFrom(fs: FileSystem, dir: string, exts: seq<string>, names: seq<string>, p: string)
    returns (i: nat)
    requires p in FlatSelection(fs, dir, exts, names)
    ensures i < |names| && Kept(fs, dir, exts, names[i]) && p == Join(dir, names[i])
    decreases |names|
  {
    var n := |names| - 1;
    var prefix := FlatSelection(fs, dir, exts, names[..n]);
    if p in prefix {
      i := SelectedFrom(fs, dir, exts, names[..n], p);
      assert names[..n][i] == names[i];
    } else {
      i := n;
    }
  }

  /** Every kept name of the listing has its path selected. */
  lemma {:induction false} KeptIsSelected(fs: FileSystem, dir: string, exts: seq<string>, names: seq<string>, i: nat)
    requires i < |names| && Kept(fs, dir, exts, names[i])
    ensures Join(dir, names[i]) in FlatSelection(fs, dir, exts, names)
    decreases |names|
  {
    var n := |names| - 1;
    var prefix := FlatSelection(fs, dir, exts, names[..n]);
    var last := if Kept(fs, dir, exts, names[n]) then [Join(dir, names[n])] else [];
    assert FlatSelection(fs, dir, exts, names) == prefix + last;
    if i < n {
      assert names[..n][i] == names[i];
      KeptIsSelected(fs, dir, exts, names[..n], i);
      assert Join(dir, names[i]) in prefix;
    } else {
      assert Join(dir, names[i]) in last;
    }
  }

  /** When every listed name matches and is a regular file, flat mode keeps
      them all, in listing order. */
  lemma {:induction false} FlatSelectionKeepsOrder(fs: FileSystem, dir: string, exts: seq<string>, names: seq<string>)
    requires forall i :: 0 <= i < |names| ==> Kept(fs, dir, exts, names[i])
    ensures FlatSelection(fs, dir, exts, names) == seq(|names|, i requires 0 <= i < |names| => Join(dir, names[i]))
  {
    if names != [] {
      var n := |names| - 1;
      FlatSelectionKeepsOrder(fs, dir, exts, names[..n]);
    }
  }

  /** Flat mode: scan the listing of `dir` in order. */
  method FlatMatches(fs: FileSystem, dir: string, exts: seq<string>) returns (found: seq<string>)
    ensures found == FlatSelection(fs, dir, exts, fs.listDir(dir))
  {
    var names := fs.listDir(dir);
    found := [];
    for i := 0 to |names|
      invariant found == FlatSelection(fs, dir, exts, names[..i])
    {
      assert names[..i + 1][..i] == names[..i];
      var nomFichier := names[i];
      var matches := false;
      for k := 0 to |exts|
        invariant matches <==> exists j :: 0 <= j < k && EndsWith(nomFichier, exts[j])
      {
        if EndsWith(nomFichier, exts[k]) {
          matches := true;
        }
      }
      if matches {
        var cheminComplet := Join(dir, nomFichier);
        if fs.isFile(cheminComplet) {
          found := found + [cheminComplet];
        }
      }
    }
    assert names[..|names|] == names;
  }

  /** The record written for one file: divider, `Fichier : <path>`, divider,
      a blank line, the file's text or the read error, and two newlines. */
  function Record(path: string, read: ReadResult): string
  {
    DIVIDER + "\n" + "Fichier : " + path + "\n" + DIVIDER + "\n\n"
    + (match read
       case Content(text) => text
       case Failure(message) => READ_ERROR + message)
    + "\n\n"
  }

  /** A record names its file in its second line, carries the file's text or
      the read error whole, and ends with a blank line. */
  lemma RecordShape(path: string, read: ReadResult)
    ensures var header := DIVIDER + "\n" + "Fichier : " + path + "\n" + DIVIDER + "\n\n";
      var body := match read
        case Content(text) => text
        case Failure(message) => READ_ERROR + message;
      && StartsWith(Record(path, read), header)
      && Record(path, read)[|header|..|header| + |body|] == body
      && EndsWith(Record(path, read), "\n\n")
  {
    var header := DIVIDER + "\n" + "Fichier : " + path + "\n" + DIVIDER + "\n\n";
    var body := match read
      case Content(text) => text
      case Failure(message) => READ_ERROR + message;
    var r := Record(path, read);
    assert r == header + body + "\n\n";
    assert r[..|header|] == header;
    assert r[|r| - 2..] == "\n\n";
  }

  /** The records of `files`, in order. */
  function Records(fs: FileSystem, files: seq<string>): string
  {
    if files == [] then []
    else Records(fs, files[..|files| - 1]) + Record(files[|files| - 1], fs.read(files[|files| - 1]))
  }

  /** The output of a list of files is the output of its parts one after the
      other: every file gets its record, whatever happened to the others. */
  lemma {:induction false} RecordsAppend(fs: FileSystem, a: seq<string>, b: seq<string>)
    ensures Records(fs, a + b) == Records(fs, a) + Records(fs, b)
    decreases |b|
  {
    if b == [] {
      assert a + b == a;
    } else {
      var n := |b| - 1;
      var last := Record(b[n], fs.read(b[n]));
      assert (a + b)[..|a + b| - 1] == a + b[..n];
      assert (a + b)[|a + b| - 1] == b[n];
      assert Records(fs, a + b) == Records(fs, a + b[..n]) + last;
      RecordsAppend(fs, a, b[..n]);
      assert Records(fs, b) == Records(fs, b[..n]) + last;
      AppendAssoc(Records(fs, a), Records(fs, b[..n]), last);
    }
  }

  /** The write loop: one record per file, in order. */
  method WriteRecords(fs: FileSystem, files: seq<string>) returns (out: string)
    ensures out == Records(fs, files)
  {
    out := [];
    for i := 0 to |files|
      invariant out == Records(fs, files[..i])
    {
      assert files[..i + 1][..i] == files[..i];
      var cheminFichier := files[i];
      ghost var before := out;
      var header := DIVIDER + "\n" + "Fichier : " + cheminFichier + "\n" + DIVIDER + "\n\n";
      var body;
      match fs.read(cheminFichier) {
        case Content(contenu) =>
          body := contenu;
        case Failure(e) =>
          body := READ_ERROR + e;
      }
      assert header + body + "\n\n" == Record(cheminFichier, fs.read(cheminFichier));
      out := out + header;
      out := out + body;
      out := out + "\n\n";
      assert out == before + (header + body + "\n\n");
    }
    assert files[..|files|] == files;
  }

  /** The files one call selects, or `None` when flat mode finds no folder. */
  ghost function Selection(fs: FileSystem, base: string, folder: string, exts: seq<string>): Option<seq<string>>
  {
    if '*' in folder then Some(SortedListing(CodePoints, Matched(fs, base, RewritePattern(folder), exts)))
    else
      var dir := Join(base, folder);
      if !fs.isDir(dir) then None else Some(FlatSelection(fs, dir, exts, fs.listDir(dir)))
  }

  /** What one call of `compiler_fichiers_par_dossier` does. */
  ghost function Compilation(fs: FileSystem, base: string, folder: string, extension: Extension, output: string): Outcome
  {
    match Selection(fs, base, folder, Extensions(extension))
    case None => MissingDirectory
    case Some(files) =>
      if files == [] then NoMatches else Written(Join(OUTPUT_DIR, output), Records(fs, files))
  }

  /** `compiler_fichiers_par_dossier(base, folder, extension, output)`. */
  method CompileFiles(fs: FileSystem, base: string, folder: string, extension: Extension, output: string)
    returns (outcome: Outcome)
    ensures outcome == Compilation(fs, base, folder, extension, output)
    ensures outcome.MissingDirectory? <==> '*' !in folder && !fs.isDir(Join(base, folder))
    ensures outcome.Written? ==> outcome.path == Join(OUTPUT_DIR, output)
  {
    var exts := Extensions(extension);
    var found;
    if '*' in folder {
      var pattern := RewritePattern(folder);
      found := RecursiveMatches(fs, base, pattern, exts);
    } else {
      var dir := Join(base, folder);
      if !fs.isDir(dir) {
        return MissingDirectory;
      }
      found := FlatMatches(fs, dir, exts);
    }
    if found == [] {
      return NoMatches;
    }
    var contents := WriteRecords(fs, found);
    outcome := Written(Join(OUTPUT_DIR, output), contents);
  }

  /** A written output holds exactly one record per selected file, in the
      selection's order; no output is written when nothing was selected. */
  lemma CompilationWrites(fs: FileSystem, base: string, folder: string, extension: Extension, output: string)
    ensures var o := Compilation(fs, base, folder, extension, output);
      var sel := Selection(fs, base, folder, Extensions(extension));
      && (o.Written? <==> sel.Some? && sel.value != [])
      && (o.Written? ==> o.contents == Records(fs, sel.value))
      && (o.NoMatches? <==> sel == Some([]))
  {
  }

  /** The script's main loop: every task in table order, each from `ROOT_DIR`. */
  method RunTasks(fs: FileSystem) returns (outcomes: seq<Outcome>)
    ensures |outcomes| == |TASKS|
    ensures forall i :: 0 <= i < |TASKS| ==>
      outcomes[i] == Compilation(fs, ROOT_DIR, TASKS[i].folder, TASKS[i].extension, TASKS[i].output)
  {
    outcomes := RunTaskList(fs, TASKS);
  }

  /** The loop of `RunTasks` over any compilation table. */
  method RunTaskList(fs: FileSystem, tasks: seq<Task>) returns (outcomes: seq<Outcome>)
    ensures |outcomes| == |tasks|
    ensures forall i :: 0 <= i < |tasks| ==> outcomes[i] == TaskOutcome(fs, tasks[i])
  {
    outcomes := [];
    for i := 0 to |tasks|
      invariant |outcomes| == i
      invariant forall j :: 0 <= j < i ==> outcomes[j] == TaskOutcome(fs, tasks[j])
    {
      var o := RunTask(fs, tasks[i]);
      outcomes := outcomes + [o];
    }
  }

  /** One task of the table, compiled from `ROOT_DIR`. */
  ghost function TaskOutcome(fs: FileSystem, task: Task): Outcome
  {
    Compilation(fs, ROOT_DIR, task.folder, task.extension, task.output)
  }

  /** The body of the main loop: one call of `compiler_fichiers_par_dossier`. */
  method RunTask(fs: FileSystem, task: Task) returns (outcome: Outcome)
    ensures outcome == TaskOutcome(fs, task)
  {
    outcome := CompileFiles(fs, ROOT_DIR, task.folder, task.extension, task.output);
  }
}
