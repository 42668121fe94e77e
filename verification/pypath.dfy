/** POSIX `os.path` operations used by the modelled code. */
module PyPath {
  import opened PyStr

  predicate HasSlash(s: string)
  {
    exists i :: 0 <= i < |s| && s[i] == '/'
  }

  /** `os.path.join(a, b)` on POSIX: an absolute `b` replaces `a`; otherwise a
      separator is inserted unless `a` is empty or already ends in one. */
  function Join(a: string, b: string): (r: string)
    ensures StartsWith(b, "/") ==> r == b
    ensures !StartsWith(b, "/") ==> EndsWith(r, b) && StartsWith(r, a)
  {
    if StartsWith(b, "/") then b
    else if a == "" || EndsWith(a, "/") then a + b
    else a + "/" + b
  }

  /** `os.path.basename(p)`: everything after the last separator. */
  function Basename(p: string): (r: string)
    ensures !HasSlash(r)
    ensures EndsWith(p, r)
    // the whole path, or exactly what follows its last '/'
    ensures |r| == |p| || p[|p| - |r| - 1] == '/'
  {
    if |p| == 0 || p[|p| - 1] == '/' then ""
    else
      var r := Basename(p[..|p| - 1]) + [p[|p| - 1]];
      assert !HasSlash(r) by {
        forall i | 0 <= i < |r| ensures r[i] != '/' {
          if i < |r| - 1 { assert r[i] == Basename(p[..|p| - 1])[i]; }
        }
      }
      r
  }

  /** A slash-free suffix of `p` starts after every '/' in `p`. */
  lemma SlashFreeSuffix(p: string, r: string, at: nat)
    requires at < |p| && p[at] == '/'
    requires !HasSlash(r) && EndsWith(p, r)
    ensures |r| < |p| - at
  {
    assert forall i :: |p| - |r| <= i < |p| ==> p[i] == r[i - (|p| - |r|)];
  }

  /** After a '/', a slash-free name is the whole basename: the basename has
      no '/', so it cannot reach back past the directory's last one, and it
      starts right after a '/', so it cannot start inside the name. */
  lemma BasenameAfterSlash(dir: string, name: string)
    requires !HasSlash(name)
    requires EndsWith(dir, "/")
    ensures Basename(dir + name) == name
  {
    var p := dir + name;
    var r := Basename(p);
    SlashFreeSuffix(p, r, |dir| - 1);
    assert forall j :: |dir| <= j < |p| ==> p[j] == name[j - |dir|];
    assert p[|p| - |r| - 1] == '/';
    assert p[|dir|..] == name;
  }

  /** A tab titled with `os.path.basename(os.path.join(d, n))` shows the name
      the user typed, whenever that name is a single path component. */
  lemma BasenameOfJoin(dir: string, name: string)
    requires name != "" && !HasSlash(name)
    ensures Basename(Join(dir, name)) == name
  {
    assert !StartsWith(name, "/") by { assert name[0] != '/'; }
    if dir == "" {
      assert Join(dir, name) == name;
      BasenameSuffix(name);
    } else if EndsWith(dir, "/") {
      BasenameAfterSlash(dir, name);
    } else {
      assert Join(dir, name) == (dir + "/") + name;
      BasenameAfterSlash(dir + "/", name);
    }
  }

  lemma BasenameSuffix(name: string)
    requires !HasSlash(name)
    ensures Basename(name) == name
  {
    var r := Basename(name);
    assert forall j :: 0 <= j < |name| ==> name[j] != '/';
    assert |r| == |name|;
    assert r == name[|name| - |r|..];
  }
}
