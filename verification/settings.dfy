/**
  The string and map handling of the settings constructor
  (`Settings::Settings` in Config.cpp): the input bindings read from the
  `"Input"` object and the skin path. The JSON document is given as its
  already-parsed `"Input"` object (key to string value) and `"CurrentSkin"`
  string; the key enumeration `Keys` is a type parameter with its table of
  enumerator names, which is what `magic_enum::enum_cast` consults.
*/
module Settings {

  // ---------------------------------------------------------------------------
  // Input bindings
  // ---------------------------------------------------------------------------

  /**
    The bindings after reading `items`: an entry whose value names an
    enumerator is (over)written with that enumerator; every other entry of
    `input` stays as it was, and nothing else is added.
  */
  function ApplyBindings<K>(input: map<string, K>, items: map<string, string>, names: map<string, K>): (r: map<string, K>)
    ensures forall key :: key in items && items[key] in names ==> key in r && r[key] == names[items[key]]
    ensures forall key :: key in r ==> key in input || (key in items && items[key] in names)
    ensures forall key :: key in input && !(key in items && items[key] in names) ==> key in r && r[key] == input[key]
  {
    map key | key in input.Keys + items.Keys && (key in input || items[key] in names) ::
      if key in items && items[key] in names then names[items[key]] else input[key]
  }

  /** The keys of `items` whose value names an enumerator. */
  function Bound<K>(items: map<string, string>, names: map<string, K>, keys: set<string>): (b: set<string>)
    ensures forall key :: key in b <==> key in keys && key in items && items[key] in names
  {
    set key | key in keys && key in items && items[key] in names
  }

  /**
    The loop over the `"Input"` items, in whatever order the JSON object yields
    them: the result does not depend on the order.
  */
  method ReadBindings<K>(input: map<string, K>, items: map<string, string>, names: map<string, K>)
    returns (r: map<string, K>)
    ensures forall key :: key in items && items[key] in names ==> key in r && r[key] == names[items[key]]
    ensures forall key :: key in r ==> key in input || (key in items && items[key] in names)
    ensures forall key :: key in input && !(key in items && items[key] in names) ==> key in r && r[key] == input[key]
  {
    r := input;
    var todo := items.Keys;
    ghost var done: set<string> := {};
    while todo != {}
      invariant todo + done == items.Keys && todo !! done
      invariant forall key :: key in done && items[key] in names ==> key in r && r[key] == names[items[key]]
      invariant forall key :: key in r ==> key in input || key in Bound(items, names, done)
      invariant forall key :: key in input && key !in Bound(items, names, done) ==> key in r && r[key] == input[key]
      decreases todo
    {
      var key :| key in todo;
      if items[key] in names {
        r := r[key := names[items[key]]];
      }
      todo := todo - {key};
      done := done + {key};
    }
  }

  // ---------------------------------------------------------------------------
  // Skin path
  // ---------------------------------------------------------------------------

  /** `std::replace(path.begin(), path.end(), '\\', '/')`. */
  function ReplaceBackslashes(path: string): (r: string)
    ensures |r| == |path|
    ensures forall i :: 0 <= i < |path| ==> r[i] == if path[i] == '\\' then '/' else path[i]
    ensures '\\' !in r
  {
    if |path| == 0 then []
    else [if path[0] == '\\' then '/' else path[0]] + ReplaceBackslashes(path[1..])
  }

  /** Replacing twice is replacing once, and a path without backslashes is left alone. */
  lemma ReplaceBackslashesIdempotent(path: string)
    ensures ReplaceBackslashes(ReplaceBackslashes(path)) == ReplaceBackslashes(path)
    ensures '\\' !in path ==> ReplaceBackslashes(path) == path
  {
  }

  const SKINS_DIR: string := "/assets/user/skins/"

  /**
    The skin directory: the working directory, the skins folder and the skin
    name, with every backslash turned into a slash. The working directory and
    the name keep their places and lengths.
  */
  function SkinPath(cwd: string, skin: string): (r: string)
    ensures |r| == |cwd| + |SKINS_DIR| + |skin|
    ensures '\\' !in r
    ensures r[..|cwd|] == ReplaceBackslashes(cwd)
    ensures r[|cwd|..|cwd| + |SKINS_DIR|] == SKINS_DIR
    ensures r[|cwd| + |SKINS_DIR|..] == ReplaceBackslashes(skin)
  {
    var p := cwd + SKINS_DIR + skin;
    var r := ReplaceBackslashes(p);
    assert r[..|cwd|] == ReplaceBackslashes(cwd);
    assert r[|cwd|..|cwd| + |SKINS_DIR|] == SKINS_DIR;
    assert r[|cwd| + |SKINS_DIR|..] == ReplaceBackslashes(skin);
    r
  }

  /** A Windows-style separator comes out as a forward slash. */
  lemma ExampleReplace()
    ensures ReplaceBackslashes("a\\b") == "a/b"
  {
    assert "a\\b"[1..] == "\\b";
    assert "\\b"[1..] == "b";
  }
}
