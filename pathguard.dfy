/**
 * The guard every artifact path passes before it is written: it must be
 * relative, not blank and free of "..", and it must resolve below the
 * resolved output root. Resolution is lexical, against the working
 * directory `cwd`; symbolic links are not modelled.
 */
module PathGuard {
  import opened Wrappers
  import opened Text
  import opened Paths

  datatype PathError =
    | NotRelative(path: string)
    | EmptyPath
    | ParentSegment(path: string)
    | OutsideRoot(path: string)

  /** The text of the `ValueError` raised for each rejection. */
  function ErrorMessage(e: PathError): string {
    match e
    case NotRelative(p) => "Artifact path must be relative: " + p
    case EmptyPath => "Artifact path must not be empty."
    case ParentSegment(p) => "Artifact path must not contain '..': " + p
    case OutsideRoot(p) => "'" + p + "' is not in the subpath of the output root"
  }

  /** `_validate_artifact_path`: the resolved components of the file to write. */
  function ValidateArtifactPath(outputRoot: PurePath, relPath: string, cwd: seq<string>): (r: Result<seq<string>, PathError>)
    ensures r.Ok? ==> IsUnder(Resolve(cwd, outputRoot), r.value)
  {
    var relative := Parse(relPath);
    if IsAbsolute(relative) then Err(NotRelative(relPath))
    else if Strip(relPath) == [] then Err(EmptyPath)
    else if ".." in relative.parts then Err(ParentSegment(relPath))
    else
      var rootResolved := Resolve(cwd, outputRoot);
      var finalPath := Resolve(cwd, Join(outputRoot, relative));
      if !IsUnder(rootResolved, finalPath) then Err(OutsideRoot(relPath))
      else Ok(finalPath)
  }

  /** The three lexical conditions the guard checks before resolving. */
  predicate Acceptable(relPath: string) {
    && !IsAbsolute(Parse(relPath))
    && !AllSpace(relPath)
    && ".." !in Parse(relPath).parts
  }

  // ----- lemmas -----

  /**
   * The guard accepts exactly the acceptable paths, and an accepted path
   * resolves to the resolved root followed by the path's own components.
   */
  lemma {:induction false} GuardAccepts(outputRoot: PurePath, relPath: string, cwd: seq<string>)
    ensures ValidateArtifactPath(outputRoot, relPath, cwd).Ok? <==> Acceptable(relPath)
    ensures Acceptable(relPath) ==>
            ValidateArtifactPath(outputRoot, relPath, cwd) == Ok(Resolve(cwd, outputRoot) + Parse(relPath).parts)
  {
    BlankIffAllSpace(relPath);
    var relative := Parse(relPath);
    if Acceptable(relPath) {
      forall i | 0 <= i < |relative.parts| ensures relative.parts[i] != ".." {
        assert relative.parts[i] in relative.parts;
      }
      ResolveJoinBelow(cwd, outputRoot, relative);
      var fin := Resolve(cwd, outputRoot) + relative.parts;
      assert fin[..|Resolve(cwd, outputRoot)|] == Resolve(cwd, outputRoot);
    }
  }

  /** The checks apply in order: absolute, then blank, then "..". */
  lemma {:induction false} GuardRejectsInOrder(outputRoot: PurePath, relPath: string, cwd: seq<string>)
    ensures IsAbsolute(Parse(relPath)) ==> ValidateArtifactPath(outputRoot, relPath, cwd) == Err(NotRelative(relPath))
    ensures !IsAbsolute(Parse(relPath)) && AllSpace(relPath) ==>
            ValidateArtifactPath(outputRoot, relPath, cwd) == Err(EmptyPath)
    ensures !IsAbsolute(Parse(relPath)) && !AllSpace(relPath) && ".." in Parse(relPath).parts ==>
            ValidateArtifactPath(outputRoot, relPath, cwd) == Err(ParentSegment(relPath))
  {
    BlankIffAllSpace(relPath);
  }

  /** Lexically, a path that passed the first three checks never lands outside the root. */
  lemma {:induction false} NeverOutsideRoot(outputRoot: PurePath, relPath: string, cwd: seq<string>)
    ensures !ValidateArtifactPath(outputRoot, relPath, cwd).Err? || !ValidateArtifactPath(outputRoot, relPath, cwd).error.OutsideRoot?
  {
    GuardAccepts(outputRoot, relPath, cwd);
    GuardRejectsInOrder(outputRoot, relPath, cwd);
  }

  /** "." passes the guard and names the output root itself. */
  lemma {:induction false} DotIsRoot(outputRoot: PurePath, cwd: seq<string>)
    ensures ValidateArtifactPath(outputRoot, ".", cwd) == Ok(Resolve(cwd, outputRoot))
  {
    assert Segments(".") == ["."] by { SegmentsSingle("."); }
    assert Named(["."]) == [];
    assert Parse(".") == PurePath("", []);
    assert !AllSpace(".") by { assert "."[0] == '.'; }
    GuardAccepts(outputRoot, ".", cwd);
    assert Resolve(cwd, outputRoot) + [] == Resolve(cwd, outputRoot);
  }

  /** Two components separated by a slash parse to those two parts. */
  lemma {:induction false} ParseTwo(a: string, b: string)
    requires IsComponent(a) && IsComponent(b)
    ensures Parse(a + "/" + b) == PurePath("", [a, b])
  {
    SegmentsCut(a, b);
    SegmentsSingle(b);
    assert a[0] in a;
    assert (a + "/" + b)[0] == a[0];
    assert Named([a, b]) == [a] + Named([b]);
    assert Named([b]) == [b] + Named([]);
  }

  /** A single component other than "..", not starting with whitespace, is an acceptable path. */
  lemma {:induction false} OneAcceptable(a: string)
    requires IsComponent(a) && |a| != 2 && !IsSpace(a[0])
    ensures Acceptable(a)
  {
    ParseComponent(a);
    assert ".." !in [a];
  }

  /** Two such components separated by a slash make an acceptable path. */
  lemma {:induction false} TwoAcceptable(a: string, b: string)
    requires IsComponent(a) && IsComponent(b) && |a| != 2 && |b| != 2 && !IsSpace(a[0])
    ensures Acceptable(a + "/" + b)
  {
    ParseTwo(a, b);
    assert (a + "/" + b)[0] == a[0];
    assert ".." !in [a, b];
  }

  lemma {:induction false} MainFileAcceptable()
    ensures Acceptable("main/main.c")
  {
    TwoAcceptable("main", "main.c");
    MainFileSpelling();
  }

  lemma {:induction false} MainFileSpelling()
    ensures "main" + "/" + "main.c" == "main/main.c"
  {
  }

  lemma {:induction false} MainCMakeAcceptable()
    ensures Acceptable("main/CMakeLists.txt")
  {
    TwoAcceptable("main", "CMakeLists.txt");
    MainCMakeSpelling();
  }

  lemma {:induction false} MainCMakeSpelling()
    ensures "main" + "/" + "CMakeLists.txt" == "main/CMakeLists.txt"
  {
  }

  lemma {:induction false} RootCMakeAcceptable()
    ensures Acceptable("CMakeLists.txt")
  {
    OneAcceptable("CMakeLists.txt");
  }

  lemma {:induction false} DiagramFileAcceptable()
    ensures Acceptable("wiring/wokwi.json")
  {
    TwoAcceptable("wiring", "wokwi.json");
    DiagramFileSpelling();
  }

  lemma {:induction false} DiagramFileSpelling()
    ensures "wiring" + "/" + "wokwi.json" == "wiring/wokwi.json"
  {
  }

  /** An Arduino sketch name without a slash gives an acceptable `{name}.ino`. */
  lemma {:induction false} SketchAcceptable(name: string)
    requires '/' !in name
    ensures Acceptable(name + ".ino")
    ensures Parse(name + ".ino") == PurePath("", [name + ".ino"])
  {
    var x := name + ".ino";
    assert x[|x| - 1] == 'o';
    assert '/' !in x by {
      forall i | 0 <= i < |x| ensures x[i] != '/' {
        if i < |name| { assert x[i] == name[i]; } else { assert x[i] in ".ino"; }
      }
    }
    assert x != "." by { assert |x| >= 4; }
    ParseComponent(x);
    assert !AllSpace(x);
    assert ".." !in [x] by { assert |x| != 2; }
  }

  /** A path that starts with a ".." component parses with ".." first and no root. */
  lemma {:induction false} ClimbingParse(rest: string)
    ensures var p := Parse(".." + "/" + rest);
            !IsAbsolute(p) && |p.parts| > 0 && p.parts[0] == ".."
  {
    var p := ".." + "/" + rest;
    SegmentsCut("..", rest);
    assert Named(Segments(p)) == [".."] + Named(Segments(rest));
    assert p[0] == '.';
  }

  /** A name that climbs out with a leading "../", as a project name may, is rejected. */
  lemma {:induction false} ClimbingPathRejected(outputRoot: PurePath, rest: string, cwd: seq<string>)
    ensures ValidateArtifactPath(outputRoot, "../" + rest, cwd) == Err(ParentSegment("../" + rest))
  {
    var p := "../" + rest;
    assert p == ".." + "/" + rest;
    ClimbingParse(rest);
    assert ".." in Parse(p).parts;
    assert !AllSpace(p) by { assert p[0] == '.'; }
    GuardRejectsInOrder(outputRoot, p, cwd);
  }
}
