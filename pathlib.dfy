/**
  The parts of Python's `pathlib.PurePosixPath` the core reads: `name`,
  `stem` and `suffix`.  A path is split at '/'; empty components and "."
  components are dropped ("a//b/./" names "b"), "..", like any other
  component, is kept.  The suffix rule is fixed as: with `i` the last '.'
  in the name, the suffix is `name[i:]` when `0 < i < len(name) - 1`, and
  empty otherwise; the stem is what precedes the suffix.
*/
module PathLib {
  import opened PyStr

  /** `PurePosixPath(path).name`: the final component, or "" when there is none. */
  function Name(path: string): (r: string)
    ensures '/' !in r && r != "."
    decreases |path|
  {
    var i := RFind(path, '/');
    var last := path[i + 1..];
    if last != "" && last != "." then last
    else if i < 0 then ""
    else Name(path[..i])
  }

  /** The suffix of a final component, by the rule above. */
  function SuffixOf(name: string): (r: string)
    ensures |r| <= |name| && r == name[|name| - |r|..]
    ensures r == "" || (|r| >= 2 && r[0] == '.' && '.' !in r[1..])
    ensures r != "" ==> |r| < |name|
  {
    var i := RFind(name, '.');
    if 0 < i < |name| - 1 then name[i..] else ""
  }

  /** The stem of a final component: the name without its suffix. */
  function StemOf(name: string): (r: string)
    ensures r + SuffixOf(name) == name
  {
    var i := RFind(name, '.');
    if 0 < i < |name| - 1 then name[..i] else name
  }

  /** `PurePosixPath(path).suffix`. */
  function Suffix(path: string): (r: string)
    ensures '/' !in r
    ensures r == "" || (|r| >= 2 && r[0] == '.' && '.' !in r[1..])
  {
    SuffixOf(Name(path))
  }

  /** `PurePosixPath(path).stem`. */
  function Stem(path: string): (r: string)
    ensures r + Suffix(path) == Name(path)
  {
    StemOf(Name(path))
  }

  /** A component joined under any directory is the name of the result. */
  lemma NameOfJoin(dir: string, comp: string)
    requires comp != "" && comp != "." && '/' !in comp
    ensures Name(dir + "/" + comp) == comp
    ensures Name(comp) == comp
  {
    RFindAfter(dir, '/', comp);
    assert (dir + "/" + comp)[|dir| + 1..] == comp;
    assert RFind(comp, '/') == -1;
  }

  /** The last '.'-extension of a component is its suffix; earlier dots stay in the stem. */
  lemma StemAndSuffixOfComponent(base: string, ext: string)
    requires base != "" && ext != "" && '.' !in ext
    ensures StemOf(base + "." + ext) == base
    ensures SuffixOf(base + "." + ext) == "." + ext
  {
    var name := base + "." + ext;
    RFindAfter(base, '.', ext);
    assert name[..|base|] == base;
    assert name[|base|..] == "." + ext;
  }

  /**
    The directories of a path play no part in its stem and suffix: only the
    last '.'-extension of the final component is the suffix.
  */
  lemma StemAndSuffixOfJoin(dir: string, base: string, ext: string)
    requires base != "" && '/' !in base
    requires ext != "" && '/' !in ext && '.' !in ext
    ensures Stem(dir + "/" + base + "." + ext) == base
    ensures Suffix(dir + "/" + base + "." + ext) == "." + ext
    ensures Stem(base + "." + ext) == base
    ensures Suffix(base + "." + ext) == "." + ext
  {
    var name := base + "." + ext;
    assert '/' !in name by {
      assert name == base + ("." + ext);
      assert '/' !in "." + ext;
    }
    assert dir + "/" + base + "." + ext == dir + "/" + name;
    NameOfJoin(dir, name);
    StemAndSuffixOfComponent(base, ext);
  }

  /** A dot-file such as ".bashrc" has no suffix: its stem is the whole name. */
  lemma LeadingDotIsNoSuffix(dir: string, rest: string)
    requires '.' !in rest && '/' !in rest && rest != ""
    ensures Suffix(dir + "/." + rest) == ""
    ensures Stem(dir + "/." + rest) == "." + rest
  {
    var name := "." + rest;
    assert '/' !in name by {
      assert forall k :: 0 < k < |name| ==> name[k] == rest[k - 1];
    }
    assert dir + "/." + rest == dir + "/" + name;
    NameOfJoin(dir, name);
    RFindAfter([], '.', rest);
  }
}
