/** SCons.Scanner.LaTeX: the scanner finds \include, \includegraphics and
    \input commands and reports each as a pair of the keyword and the file
    name.  Only the file name is looked up; the keyword decides whether
    ".tex" is added.  The file search and the case normalisation of the file
    system are parameters. */
module LaTeXScanner {
  import opened Errors
  import opened Strings

  /** One match of the scanner's regular expression: the keyword
      ("include", "input" or "includegraphics" with optional options in
      brackets) and the text between the braces. */
  datatype Include = Include(keyword: string, file: string)

  const GraphicsKeyword: string := "includegraphics"
  const TexSuffix: string := ".tex"

  /** latex_name: graphics keep their name, everything else is a .tex file. */
  function LatexName(inc: Include): (r: string)
    ensures IsPrefix(GraphicsKeyword, inc.keyword) ==> r == inc.file
    ensures !IsPrefix(GraphicsKeyword, inc.keyword) ==> r == inc.file + TexSuffix
  {
    if PyHead(inc.keyword, 15) != GraphicsKeyword then inc.file + TexSuffix else inc.file
  }

  /** The keywords the scanner's regular expression produces, and the name
      each gives a file: graphics options never change the name. */
  lemma LatexNameKeywords(file: string, options: string)
    ensures LatexName(Include("include", file)) == file + TexSuffix
    ensures LatexName(Include("input", file)) == file + TexSuffix
    ensures LatexName(Include(GraphicsKeyword, file)) == file
    ensures LatexName(Include(GraphicsKeyword + "[" + options + "]", file)) == file
  {
    assert PyHead("include", 15) == "include";
    assert PyHead("input", 15) == "input";
    assert (GraphicsKeyword + "[" + options + "]")[..15] == GraphicsKeyword;
  }

  /** sort_key: the normalised-case form of the file name. */
  function SortKey(inc: Include, normcase: string -> string): string
  {
    normcase(LatexName(inc))
  }

  /** Graphics options do not change the sort key, and an \include and an
      \input of the same file sort together. */
  lemma SortKeyIgnoresKeyword(file: string, options: string, normcase: string -> string)
    ensures SortKey(Include(GraphicsKeyword + "[" + options + "]", file), normcase) ==
            SortKey(Include(GraphicsKeyword, file), normcase)
    ensures SortKey(Include("include", file), normcase) == SortKey(Include("input", file), normcase)
  {
    LatexNameKeywords(file, options);
  }

  /** The path argument: a list of directories, or a callable returning one. */
  datatype PathArg = Dirs(dirs: seq<string>) | Lazy(call: () -> seq<string>)

  function PathDirs(path: PathArg): (r: seq<string>)
    ensures path.Dirs? ==> r == path.dirs
    ensures path.Lazy? ==> r == path.call()
  {
    match path
    case Dirs(d) => d
    case Lazy(c) => c()
  }

  /** find_include: the directories searched are the source directory and
      then the path entries, in order; the include is returned beside what
      was found.  findFile(name, dirs) is FS.find_file. */
  function FindInclude(inc: Include, sourceDir: string, path: PathArg,
                       findFile: (string, seq<string>) -> Option<string>): (r: (Option<string>, Include))
    ensures r.1 == inc
    ensures var dirs := [sourceDir] + PathDirs(path);
      r.0 == findFile(LatexName(inc), dirs) && dirs[0] == sourceDir && dirs[1..] == PathDirs(path)
  {
    (findFile(LatexName(inc), [sourceDir] + PathDirs(path)), inc)
  }

  /** A search that returns the first directory holding the file, the way
      FS.find_file walks its directory list. */
  function FirstFound(name: string, dirs: seq<string>, holds: (string, string) -> bool): (r: Option<string>)
    ensures r.None? <==> forall k :: 0 <= k < |dirs| ==> !holds(dirs[k], name)
    ensures r.Some? ==> exists k :: (0 <= k < |dirs| && r.value == dirs[k] && holds(dirs[k], name) &&
      forall j :: 0 <= j < k ==> !holds(dirs[j], name))
    decreases |dirs|
  {
    if dirs == [] then None
    else if holds(dirs[0], name) then Some(dirs[0])
    else
      var r := FirstFound(name, dirs[1..], holds);
      assert forall k :: 0 <= k < |dirs[1..]| ==> dirs[1..][k] == dirs[k + 1];
      r
  }

  /** With such a search, a file next to the source wins over any path
      entry, and a path entry is used only when the source directory does
      not hold the file. */
  lemma SourceDirFirst(inc: Include, sourceDir: string, path: PathArg, holds: (string, string) -> bool)
    ensures var r := FindInclude(inc, sourceDir, path, (n, ds) => FirstFound(n, ds, holds));
      (holds(sourceDir, LatexName(inc)) ==> r.0 == Some(sourceDir)) &&
      (!holds(sourceDir, LatexName(inc)) ==> r.0 == FirstFound(LatexName(inc), PathDirs(path), holds))
  {
    var dirs := [sourceDir] + PathDirs(path);
    assert dirs[1..] == PathDirs(path);
  }
}
