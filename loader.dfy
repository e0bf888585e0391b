/** LoadScene: the file name's extension picks the loader. The loaders
    themselves read files; here each is a parameter that gives what that
    loader returns for a file name. */
module Loader {
  import opened Wrappers

  /** What a loader returns: a success flag and a (possibly null) root. */
  datatype Loaded<N> = Loaded(success: bool, root: Option<N>)

  /** std::string::find_last_of for one character, with the npos result
      narrowed to int, where it reads as -1. */
  function LastIndexOf(s: string, c: char): (i: int)
    ensures -1 <= i < |s|
    ensures i >= 0 ==> s[i] == c
    ensures forall j | i < j < |s| :: s[j] != c
  {
    if |s| == 0 then -1
    else if s[|s| - 1] == c then |s| - 1
    else LastIndexOf(s[..|s| - 1], c)
  }

  /** filename.substr(filename.find_last_of(".") + 1) */
  function Extension(filename: string): string
  {
    filename[LastIndexOf(filename, '.') + 1..]
  }

  /** The extension is the text after the last dot: it holds no dot, and
      the file name is some prefix, a dot and the extension. */
  lemma ExtensionAfterLastDot(filename: string)
    requires '.' in filename
    ensures '.' !in Extension(filename)
    ensures exists k | 0 <= k < |filename| ::
              filename[k] == '.' && filename[k + 1..] == Extension(filename)
    ensures |Extension(filename)| < |filename|
  {
    var k := LastIndexOf(filename, '.');
    var ext := Extension(filename);
    forall j | 0 <= j < |ext| ensures ext[j] != '.' {
      assert ext[j] == filename[k + 1 + j];
    }
  }

  /** The last dot of stem + "." + ext, when ext holds none, is the one
      after the stem. */
  lemma {:induction false} LastDotBeforeExtension(stem: string, ext: string)
    requires '.' !in ext
    ensures LastIndexOf(stem + "." + ext, '.') == |stem|
    ensures Extension(stem + "." + ext) == ext
    decreases |ext|
  {
    var name := stem + "." + ext;
    if ext == [] {
      assert name[..|name| - 1] == stem;
    } else {
      var shorter := ext[..|ext| - 1];
      assert name[|name| - 1] == ext[|ext| - 1] && ext[|ext| - 1] in ext;
      assert name[..|name| - 1] == stem + "." + shorter;
      assert forall c | c in shorter :: c in ext;
      LastDotBeforeExtension(stem, shorter);
    }
    assert name[|stem| + 1..] == ext;
  }

  /** find_last_of finds nothing in a string without the character. */
  lemma {:induction false} NoLastIndex(s: string, c: char)
    requires c !in s
    ensures LastIndexOf(s, c) == -1
  {
    if |s| > 0 {
      assert s[|s| - 1] in s;
      assert forall x | x in s[..|s| - 1] :: x in s;
      NoLastIndex(s[..|s| - 1], c);
    }
  }

  /** A file name without a dot is its own extension: npos narrowed to -1
      makes the substring start at 0. */
  lemma ExtensionWithoutDot(filename: string)
    requires '.' !in filename
    ensures Extension(filename) == filename
  {
    NoLastIndex(filename, '.');
  }

  /** LoadScene(filename): "builtin" and "trisrc" go to their loaders and a
      failing loader gives a null root; any other extension gives null. */
  function LoadScene<N>(filename: string, builtin: string -> Loaded<N>, trisrc: string -> Loaded<N>): (root: Option<N>)
    ensures root.Some? ==> Extension(filename) in {"builtin", "trisrc"}
  {
    var extension := Extension(filename);
    if extension == "builtin" then
      var r := builtin(filename);
      if !r.success then None else r.root
    else if extension == "trisrc" then
      var r := trisrc(filename);
      if !r.success then None else r.root
    else
      None
  }

  /** The loader that the extension names decides the result: its root when
      it succeeds, null when it fails. */
  lemma LoadSceneDispatch<N>(filename: string, builtin: string -> Loaded<N>, trisrc: string -> Loaded<N>)
    ensures var chosen := if Extension(filename) == "builtin" then builtin(filename) else trisrc(filename);
      Extension(filename) in {"builtin", "trisrc"} ==>
        LoadScene(filename, builtin, trisrc) == (if chosen.success then chosen.root else None)
    ensures Extension(filename) !in {"builtin", "trisrc"} ==> LoadScene(filename, builtin, trisrc) == None
  {
  }

  /** A file named with a dot and the extension "trisrc" is handed to the
      trisrc loader, whatever comes before the dot. */
  lemma LoadSceneTriSrcFile<N>(stem: string, builtin: string -> Loaded<N>, trisrc: string -> Loaded<N>)
    ensures var name := stem + ".trisrc";
      LoadScene(name, builtin, trisrc) == (if trisrc(name).success then trisrc(name).root else None)
  {
    LastDotBeforeExtension(stem, "trisrc");
    assert stem + "." + "trisrc" == stem + ".trisrc";
  }
}
