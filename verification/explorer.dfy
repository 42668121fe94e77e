/** `ExplorerSidebar` (explorer_sidebar.py): choosing the working directory,
    opening a file from the tree, and the guarded New File / New Folder
    dialogs. The file system is a map from paths to entries; the tree view's
    root, the current editor's path and contents and its tab's title are
    fields of one record. */
module Explorer {
  import opened Common
  import opened PyPath

  datatype Entry = File(content: string) | Directory

  datatype Sidebar = Sidebar(currentDirectory: string, treeRoot: string,
                             fs: map<string, Entry>,
                             editorPath: Option<string>, editorText: string,
                             tabTitle: string)

  datatype Kind = NewFile | NewFolder

  datatype Warning = NoDirectory | EmptyName(kind: Kind) | AlreadyExists(kind: Kind)

  /** The text of each `QMessageBox.warning`. */
  function WarningText(w: Warning): string
  {
    match w
    case NoDirectory => "Please select a directory first!"
    case EmptyName(NewFile) => "File name cannot be empty!"
    case EmptyName(NewFolder) => "Folder name cannot be empty!"
    case AlreadyExists(NewFile) => "File already exists!"
    case AlreadyExists(NewFolder) => "Folder already exists!"
  }

  /** What a successful create puts at the new path. */
  function Created(kind: Kind): Entry
  {
    match kind
    case NewFile => File("")
    case NewFolder => Directory
  }

  /** `select_directory()` (lines 40-44); `chosen` is what the directory
      dialog returned, empty when it was cancelled. */
  function SelectDirectory(s: Sidebar, chosen: string): (r: Sidebar)
    ensures chosen == "" ==> r == s
    ensures chosen != "" ==> r.currentDirectory == chosen && r.treeRoot == chosen
    ensures r.fs == s.fs && r.editorPath == s.editorPath && r.editorText == s.editorText
    ensures r.tabTitle == s.tabTitle
  {
    if chosen != "" then s.(currentDirectory := chosen, treeRoot := chosen) else s
  }

  /** `open_file_from_explorer(index)` (lines 46-53): only a regular file is
      loaded into the current editor. */
  function OpenFile(s: Sidebar, path: string): (r: Sidebar)
    ensures (path !in s.fs || s.fs[path].Directory?) ==> r == s
    ensures path in s.fs && s.fs[path].File? ==>
      r == s.(editorText := s.fs[path].content, editorPath := Some(path), tabTitle := Basename(path))
  {
    if path in s.fs && s.fs[path].File? then
      s.(editorText := s.fs[path].content, editorPath := Some(path), tabTitle := Basename(path))
    else s
  }

  /** The result of one press of a dialog's Create button. */
  datatype Press = Press(state: Sidebar, warning: Option<Warning>, closed: bool)

  /** `create_file` (lines 75-92) and `create_folder` (lines 114-126). */
  function Create(s: Sidebar, kind: Kind, name: string, directory: string): (r: Press)
    ensures name == "" ==> r == Press(s, Some(EmptyName(kind)), false)
    ensures name != "" && Join(directory, name) in s.fs ==>
      r == Press(s, Some(AlreadyExists(kind)), false)
    ensures r.closed <==> name != "" && Join(directory, name) !in s.fs
    ensures r.closed <==> r.warning.None?
    ensures r.closed ==>
      var path := Join(directory, name);
      && path !in s.fs
      && r.state.fs == s.fs[path := Created(kind)]
      && r.state.treeRoot == directory
      && r.state.currentDirectory == s.currentDirectory
      && r.state.editorText == s.editorText
      && (kind == NewFile ==> r.state.editorPath == Some(path) && r.state.tabTitle == Basename(path))
      && (kind == NewFolder ==> r.state.editorPath == s.editorPath && r.state.tabTitle == s.tabTitle)
  {
    if name == "" then Press(s, Some(EmptyName(kind)), false)
    else
      var path := Join(directory, name);
      if path in s.fs then Press(s, Some(AlreadyExists(kind)), false)
      else
        var made := s.(fs := s.fs[path := Created(kind)], treeRoot := directory);
        match kind
        case NewFile => Press(made.(editorPath := Some(path), tabTitle := Basename(path)), None, true)
        case NewFolder => Press(made, None, true)
  }

  /** What one opening of a dialog leaves behind: the sidebar and the
      warnings shown, in order. */
  datatype Session = Session(state: Sidebar, warnings: seq<Warning>)

  /** The modal dialog: each name the user submits is tried in turn until one
      succeeds and closes the dialog; names after that are never read. */
  function Presses(s: Sidebar, kind: Kind, names: seq<string>, directory: string): (r: Session)
    ensures |r.warnings| <= |names|
    ensures forall k :: 0 <= k < |r.warnings| ==> !r.warnings[k].NoDirectory? && r.warnings[k].kind == kind
    ensures r.state.currentDirectory == s.currentDirectory && r.state.editorText == s.editorText
    decreases |names|
  {
    if |names| == 0 then Session(s, [])
    else
      var p := Create(s, kind, names[0], directory);
      if p.closed then Session(p.state, [])
      else
        var rest := Presses(p.state, kind, names[1..], directory);
        Session(rest.state, [p.warning.value] + rest.warnings)
  }

  /** `create_new_file` (lines 55-73) and `create_new_folder` (lines 94-112);
      `names` are the names submitted with Create before the dialog closed. */
  function NewEntry(s: Sidebar, kind: Kind, names: seq<string>): (r: Session)
    ensures s.currentDirectory == "" ==> r == Session(s, [NoDirectory])
  {
    if s.currentDirectory == "" then Session(s, [NoDirectory])
    else Presses(s, kind, names, s.currentDirectory)
  }

  /** A name the dialog would accept. */
  predicate Accepts(s: Sidebar, name: string, directory: string)
  {
    name != "" && Join(directory, name) !in s.fs
  }

  /** When every name is refused, each press shows a warning and nothing
      changes. */
  lemma {:induction false} PressesAllRefused(s: Sidebar, kind: Kind, names: seq<string>, directory: string)
    requires forall k :: 0 <= k < |names| ==> !Accepts(s, names[k], directory)
    ensures Presses(s, kind, names, directory).state == s
    ensures |Presses(s, kind, names, directory).warnings| == |names|
    decreases |names|
  {
    if |names| > 0 {
      assert !Accepts(s, names[0], directory);
      assert forall k :: 0 <= k < |names[1..]| ==> names[1..][k] == names[k + 1];
      PressesAllRefused(s, kind, names[1..], directory);
    }
  }

  /** A refused first name leaves a warning and hands the rest of the names
      to the same dialog, unchanged. */
  lemma PressesRefusedFirst(s: Sidebar, kind: Kind, names: seq<string>, directory: string)
    requires |names| > 0 && !Accepts(s, names[0], directory)
    ensures Presses(s, kind, names, directory).state == Presses(s, kind, names[1..], directory).state
    ensures |Presses(s, kind, names, directory).warnings| == 1 + |Presses(s, kind, names[1..], directory).warnings|
  {
    var p := Create(s, kind, names[0], directory);
    assert !p.closed && p.state == s;
  }

  /** An acceptable first name closes the dialog with its entry added and no
      warning. */
  lemma PressesAcceptedFirst(s: Sidebar, kind: Kind, names: seq<string>, directory: string)
    requires |names| > 0 && Accepts(s, names[0], directory)
    ensures Presses(s, kind, names, directory).state.fs == s.fs[Join(directory, names[0]) := Created(kind)]
    ensures Presses(s, kind, names, directory).warnings == []
  {
    var p := Create(s, kind, names[0], directory);
    assert p.closed;
    assert Presses(s, kind, names, directory) == Session(p.state, []);
  }

  /** Dropping a refused first name keeps the k-th name the first acceptable
      one, one place earlier. */
  lemma RefusedShift(s: Sidebar, names: seq<string>, directory: string, k: nat)
    requires 0 < k < |names| && Accepts(s, names[k], directory)
    requires forall j :: 0 <= j < k ==> !Accepts(s, names[j], directory)
    ensures !Accepts(s, names[0], directory)
    ensures names[1..][k - 1] == names[k] && Accepts(s, names[1..][k - 1], directory)
    ensures forall j :: 0 <= j < k - 1 ==> !Accepts(s, names[1..][j], directory)
  {
    forall j | 0 <= j < k - 1 ensures !Accepts(s, names[1..][j], directory) {
      assert names[1..][j] == names[j + 1];
    }
  }

  /** The first acceptable name adds exactly its entry, after one warning for
      each name refused before it. */
  lemma {:induction false} PressesFirstAccepted(s: Sidebar, kind: Kind, names: seq<string>, directory: string, k: nat)
    requires k < |names| && Accepts(s, names[k], directory)
    requires forall j :: 0 <= j < k ==> !Accepts(s, names[j], directory)
    ensures Presses(s, kind, names, directory).state.fs == s.fs[Join(directory, names[k]) := Created(kind)]
    ensures |Presses(s, kind, names, directory).warnings| == k
    decreases k
  {
    if k > 0 {
      RefusedShift(s, names, directory, k);
      PressesRefusedFirst(s, kind, names, directory);
      PressesFirstAccepted(s, kind, names[1..], directory, k - 1);
    } else {
      PressesAcceptedFirst(s, kind, names, directory);
    }
  }

  /** No press ever removes or rewrites an entry that was already there. */
  lemma {:induction false} PressesKeepEntries(s: Sidebar, kind: Kind, names: seq<string>, directory: string)
    ensures forall path :: path in s.fs ==>
      path in Presses(s, kind, names, directory).state.fs &&
      Presses(s, kind, names, directory).state.fs[path] == s.fs[path]
    decreases |names|
  {
    if |names| > 0 && !Create(s, kind, names[0], directory).closed {
      PressesKeepEntries(s, kind, names[1..], directory);
    }
  }

  /** With no directory chosen, nothing is created. */
  lemma NoDirectoryNoChange(s: Sidebar, kind: Kind, names: seq<string>)
    requires s.currentDirectory == ""
    ensures NewEntry(s, kind, names).state.fs == s.fs
    ensures NewEntry(s, kind, names).warnings == [NoDirectory]
  {
  }

  /** A dialog session never removes or rewrites an entry. */
  lemma NewEntryNeverOverwrites(s: Sidebar, kind: Kind, names: seq<string>)
    ensures forall path :: path in s.fs ==>
      path in NewEntry(s, kind, names).state.fs && NewEntry(s, kind, names).state.fs[path] == s.fs[path]
  {
    if s.currentDirectory != "" { PressesKeepEntries(s, kind, names, s.currentDirectory); }
  }

  lemma {:induction false} PressesAtMostOne(s: Sidebar, kind: Kind, names: seq<string>, directory: string)
    ensures var r := Presses(s, kind, names, directory).state;
      r.fs == s.fs || exists path :: path !in s.fs && r.fs == s.fs[path := Created(kind)]
    decreases |names|
  {
    if |names| > 0 {
      var p := Create(s, kind, names[0], directory);
      if p.closed {
        var path := Join(directory, names[0]);
        assert path !in s.fs && p.state.fs == s.fs[path := Created(kind)];
      } else {
        PressesAtMostOne(s, kind, names[1..], directory);
      }
    }
  }

  /** One opening of a dialog leaves the file system as it was or adds a
      single entry at a path that did not exist. */
  lemma NewEntryAddsAtMostOne(s: Sidebar, kind: Kind, names: seq<string>)
    ensures var r := NewEntry(s, kind, names).state;
      r.fs == s.fs || exists path :: path !in s.fs && r.fs == s.fs[path := Created(kind)]
  {
    if s.currentDirectory != "" { PressesAtMostOne(s, kind, names, s.currentDirectory); }
  }

  /** Every warning shows its own message. */
  lemma WarningTextsDistinct(a: Warning, b: Warning)
    requires a != b
    ensures WarningText(a) != WarningText(b)
  {
  }

  /** Opening the file already open changes nothing. */
  lemma OpenFileIdempotent(s: Sidebar, path: string)
    ensures OpenFile(OpenFile(s, path), path) == OpenFile(s, path)
  {
  }

  /** A file just created from the dialog opens empty, under the name typed. */
  lemma OpenAfterCreate(s: Sidebar, name: string, directory: string)
    requires Accepts(s, name, directory) && !HasSlash(name)
    ensures var t := OpenFile(Create(s, NewFile, name, directory).state, Join(directory, name));
      t.editorText == "" && t.editorPath == Some(Join(directory, name)) && t.tabTitle == name
  {
    BasenameOfJoin(directory, name);
  }

  /** The title of a newly created file's tab is the name typed. */
  lemma NewFileTabShowsName(s: Sidebar, name: string, directory: string)
    requires Accepts(s, name, directory) && !HasSlash(name)
    ensures Create(s, NewFile, name, directory).state.tabTitle == name
  {
    BasenameOfJoin(directory, name);
  }
}
