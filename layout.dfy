/** Where a storage root keeps its files (src/core/layout/storage.rs). The
    root's default, `$HOME/.local/share/skuff`, is read from the environment
    in the source; here it is a parameter. Paths are strings. */
module Layout {
  import opened Wrappers
  import opened Util

  type Path = string

  /** `PathBuf::join` with a relative path: a `/` goes between unless the
      base is empty or already ends with one; nothing is normalised. */
  function Join(base: Path, rel: Path): (r: Path)
    ensures |r| >= |base| + |rel| && r[..|base|] == base && r[|r| - |rel|..] == rel
  {
    if base == [] || base[|base| - 1] == '/' then base + rel else base + "/" + rel
  }

  datatype StorageLayout = StorageLayout(root: Path) {

    /** `StorageLayout::coalesce`: the explicit root, else the one from the
        settings, else the default. */
    static function Coalesce(explicit: Option<Path>, settings: Option<Path>, default: Path): (l: StorageLayout)
      ensures explicit.Some? ==> l.root == explicit.value
      ensures explicit.None? && settings.Some? ==> l.root == settings.value
      ensures explicit.None? && settings.None? ==> l.root == default
    {
      StorageLayout(explicit.Or(settings).UnwrapOr(default))
    }

    /** root/streams/<stream>/stream.json */
    function StreamPath(stream: string): Path {
      Join(root, "streams/" + stream + "/stream.json")
    }

    /** root/streams */
    function StreamsPath(): Path {
      Join(root, "streams")
    }

    /** root/streams/<stream>/config.json */
    function ConfigPath(stream: string): Path {
      Join(root, "streams/" + stream + "/config.json")
    }

    /** root/CURRENT_STREAM */
    function CurrentStreamPath(): Path {
      Join(root, "CURRENT_STREAM")
    }

    /** The directory holding a stream's two files, inside the streams
        directory. */
    function StreamDir(stream: string): Path {
      StreamsPath() + "/" + stream
    }
  }

  /** A stream's data and configuration files sit side by side in the
      stream's own directory under root/streams. */
  lemma StreamFilesShareDirectory(l: StorageLayout, stream: string)
    ensures l.StreamPath(stream) == l.StreamDir(stream) + "/stream.json"
    ensures l.ConfigPath(stream) == l.StreamDir(stream) + "/config.json"
  {
    JoinStreamFile(l, stream, "/stream.json");
    JoinStreamFile(l, stream, "/config.json");
  }

  lemma JoinStreamFile(l: StorageLayout, stream: string, file: string)
    ensures Join(l.root, "streams/" + stream + file) == l.StreamDir(stream) + file
  {
    var r := l.root;
    assert "streams/" + stream + file == "streams" + "/" + stream + file;
    if r == [] || r[|r| - 1] == '/' {
      assert l.StreamsPath() == r + "streams";
    } else {
      assert l.StreamsPath() == r + "/" + "streams";
    }
  }

  /** Different accepted stream names give different stream files. An
      accepted name holds no `/` and no `.`, so it is at most one path
      component (the empty name has none), and the two paths also differ
      component by component, which is how `PathBuf`
      compares them. */
  lemma StreamPathInjective(l: StorageLayout, s: string, t: string)
    requires ValidateStream(s).Success? && ValidateStream(t).Success?
    requires l.StreamPath(s) == l.StreamPath(t)
    ensures s == t
  {
    StreamPathSplit(l, s);
    StreamPathSplit(l, t);
    Cancel(l.StreamsPath() + "/", s, t, "/stream.json");
  }

  /** No stream file is any stream's configuration file. */
  lemma StreamPathIsNotConfigPath(l: StorageLayout, s: string, t: string)
    ensures l.StreamPath(s) != l.ConfigPath(t)
  {
    StreamFilesShareDirectory(l, s);
    StreamFilesShareDirectory(l, t);
    DifferentFileNames(l.StreamDir(s), l.StreamDir(t));
  }

  lemma DifferentFileNames(x: string, y: string)
    ensures x + "/stream.json" != y + "/config.json"
  {
    var a, b := x + "/stream.json", y + "/config.json";
    assert a[|a| - 11] == 's';
    assert b[|b| - 11] == 'c';
  }

  lemma StreamPathSplit(l: StorageLayout, s: string)
    ensures l.StreamPath(s) == (l.StreamsPath() + "/") + (s + "/stream.json")
  {
    var r := l.root;
    var q := "/stream.json";
    if r == [] || r[|r| - 1] == '/' {
      assert "streams/" + s + q == ("streams" + "/") + (s + q);
      assert r + (("streams" + "/") + (s + q)) == (r + "streams" + "/") + (s + q);
    } else {
      assert "streams/" + s + q == ("streams" + "/") + (s + q);
      assert r + "/" + (("streams" + "/") + (s + q)) == (r + "/" + "streams" + "/") + (s + q);
    }
  }

  lemma Cancel(p: string, s: string, t: string, q: string)
    requires p + (s + q) == p + (t + q)
    ensures s == t
  {
    var x := p + (s + q);
    assert |s| == |t|;
    assert s == x[|p|..|p| + |s|];
    assert t == x[|p|..|p| + |t|];
  }

  /** The streams directory and the current-stream file do not depend on any
      stream name, and every path lies under the root. */
  lemma PathsUnderRoot(l: StorageLayout, stream: string)
    ensures l.StreamPath(stream)[..|l.root|] == l.root
    ensures l.ConfigPath(stream)[..|l.root|] == l.root
    ensures l.StreamsPath()[..|l.root|] == l.root
    ensures l.CurrentStreamPath()[..|l.root|] == l.root
    ensures l.StreamDir(stream)[..|l.StreamsPath()|] == l.StreamsPath()
  {
  }
}
