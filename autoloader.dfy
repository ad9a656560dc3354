/**
 * The class autoloader `gmb-connect.php` registers: a class in the
 * `GMBConnect` namespace is loaded from the plugin's `src/` directory, the
 * namespace separators of the rest of its name becoming directory
 * separators, after WordPress's `wp_normalize_path`.
 */
module Autoloader {
  import opened Text

  const PluginSpace := "GMBConnect"

  // -------------------------------------------------------------------------
  // wp_normalize_path
  // -------------------------------------------------------------------------

  /** Whether `preg_replace('|(?<=.)/+|', '/', ...)` drops a '/' that follows
      the already collapsed text `o`: a run of slashes preceded by any
      character but a newline shrinks to one, so that a run at the start or
      after a newline keeps two. */
  predicate SlashDropped(o: string, c: char)
  {
    c == '/' && |o| >= 2 && o[|o| - 1] == '/' && o[|o| - 2] != '\n'
  }

  /** The `preg_replace` step of `wp_normalize_path`, left to right. */
  function CollapseSlashes(s: string): string
  {
    if |s| == 0 then ""
    else
      var o := CollapseSlashes(s[..|s| - 1]);
      if SlashDropped(o, s[|s| - 1]) then o else o + [s[|s| - 1]]
  }

  /** No position where the `preg_replace` step would change anything. */
  predicate Collapsed(s: string)
  {
    forall j :: 2 <= j < |s| ==> !(s[j] == '/' && s[j - 1] == '/' && s[j - 2] != '\n')
  }

  /** `ucfirst` when the second character is ':' (a Windows drive letter). */
  function UpperDrive(s: string): string
  {
    if |s| >= 2 && s[1] == ':' then [UpperChar(s[0])] + s[1..] else s
  }

  /** `wp_normalize_path` for a path that is not a stream URL. */
  function NormalizePath(path: string): string
  {
    UpperDrive(CollapseSlashes(ReplaceChar(path, '\\', '/')))
  }

  /** `s` with every '/' removed. */
  function WithoutSlashes(s: string): string
  {
    if |s| == 0 then ""
    else WithoutSlashes(s[..|s| - 1]) + (if s[|s| - 1] == '/' then "" else [s[|s| - 1]])
  }

  lemma {:induction false} CollapseSlashesCollapsed(s: string)
    ensures Collapsed(CollapseSlashes(s))
  {
    if |s| > 0 {
      CollapseSlashesCollapsed(s[..|s| - 1]);
    }
  }

  /** Collapsed text is left as it is. */
  lemma {:induction false} CollapsedUnchanged(s: string)
    requires Collapsed(s)
    ensures CollapseSlashes(s) == s
  {
    if |s| > 0 {
      var p := s[..|s| - 1];
      assert Collapsed(p) by {
        forall j | 2 <= j < |p|
          ensures !(p[j] == '/' && p[j - 1] == '/' && p[j - 2] != '\n')
        {
          assert p[j] == s[j] && p[j - 1] == s[j - 1] && p[j - 2] == s[j - 2];
        }
      }
      CollapsedUnchanged(p);
      if |s| >= 3 {
        assert s[|s| - 2] == p[|p| - 1] && s[|s| - 3] == p[|p| - 2];
      }
      assert p + [s[|s| - 1]] == s;
    }
  }

  /** Collapsing removes slashes and nothing else. */
  lemma {:induction false} CollapseKeepsAllButSlashes(s: string)
    ensures WithoutSlashes(CollapseSlashes(s)) == WithoutSlashes(s)
    ensures |CollapseSlashes(s)| <= |s|
  {
    if |s| > 0 {
      var p := s[..|s| - 1];
      var x := s[|s| - 1];
      var o := CollapseSlashes(p);
      CollapseKeepsAllButSlashes(p);
      assert WithoutSlashes(s) == WithoutSlashes(p) + (if x == '/' then "" else [x]);
      if !SlashDropped(o, x) {
        WithoutSlashesSnoc(o, x);
      }
    }
  }

  lemma WithoutSlashesSnoc(o: string, x: char)
    ensures WithoutSlashes(o + [x]) == WithoutSlashes(o) + (if x == '/' then "" else [x])
  {
    assert (o + [x])[..|o|] == o;
  }

  lemma {:induction false} CollapseKeepsBackslashFree(s: string)
    requires forall i :: 0 <= i < |s| ==> s[i] != '\\'
    ensures forall i :: 0 <= i < |CollapseSlashes(s)| ==> CollapseSlashes(s)[i] != '\\'
  {
    if |s| > 0 {
      CollapseKeepsBackslashFree(s[..|s| - 1]);
    }
  }

  /** The properties of a normalized path: '/' separators only, runs of
      slashes collapsed, an upper-case drive letter. */
  predicate Normalized(p: string)
  {
    (forall i :: 0 <= i < |p| ==> p[i] != '\\') && Collapsed(p) && UpperDrive(p) == p
  }

  lemma NormalizePathNormalized(path: string)
    ensures Normalized(NormalizePath(path))
  {
    var r := ReplaceChar(path, '\\', '/');
    CollapseKeepsBackslashFree(r);
    CollapseSlashesCollapsed(r);
    var c := CollapseSlashes(r);
    var n := UpperDrive(c);
    if |c| >= 2 && c[1] == ':' {
      assert n[1..] == c[1..];
      assert forall i :: 1 <= i < |n| ==> n[i] == c[i];
    }
  }

  /** A normalized path is its own normal form, so normalizing twice changes nothing. */
  lemma NormalizedUnchanged(p: string)
    requires Normalized(p)
    ensures NormalizePath(p) == p
  {
    assert ReplaceChar(p, '\\', '/') == p;
    CollapsedUnchanged(p);
  }

  lemma NormalizePathIdempotent(path: string)
    ensures NormalizePath(NormalizePath(path)) == NormalizePath(path)
  {
    NormalizePathNormalized(path);
    NormalizedUnchanged(NormalizePath(path));
  }

  // -------------------------------------------------------------------------
  // The autoload callback
  // -------------------------------------------------------------------------

  /** What the callback does with a class name. */
  datatype Autoload =
    | Ignored                     // another namespace: left to other autoloaders
    | NotReadable(file: string)   // the file it looked for does not exist
    | Required(file: string)      // `require_once` of that file

  /** `plugin_dir_path(__DIR__) . basename(__DIR__) . '/src/'`, for the plugin
      folder `folder` inside `parentDir`. */
  function SourceDir(parentDir: string, folder: string): string
  {
    TrailingSlashIt(parentDir) + folder + "/src/"
  }

  /** The file the callback looks for. `substr` past the end gives "". */
  function ClassFile(className: string, parentDir: string, folder: string): string
  {
    var relative := if |className| > |PluginSpace| + 1 then className[|PluginSpace| + 1..] else "";
    NormalizePath(SourceDir(parentDir, folder) + relative + ".php")
  }

  /** The callback for `className`; `readable` is the set of paths
      `is_readable` accepts. */
  function AutoloadClass(className: string, parentDir: string, folder: string, readable: set<string>): Autoload
  {
    if Split(className, "\\")[0] != PluginSpace then Ignored
    else
      var file := ClassFile(className, parentDir, folder);
      if file in readable then Required(file) else NotReadable(file)
  }

  /** Only `GMBConnect` itself and names under `GMBConnect\` are handled. */
  lemma AutoloadHandlesOwnNamespace(className: string, parentDir: string, folder: string, readable: set<string>)
    ensures AutoloadClass(className, parentDir, folder, readable) != Ignored <==>
      className == PluginSpace || HasPrefix(className, PluginSpace + "\\")
  {
    FirstPieceIsPluginSpace(className);
  }

  lemma FirstPieceIsPluginSpace(className: string)
    ensures Split(className, "\\")[0] == PluginSpace <==>
      className == PluginSpace || HasPrefix(className, PluginSpace + "\\")
  {
    if className == PluginSpace {
      SplitWithoutSeparator(className, "\\");
    } else if HasPrefix(className, PluginSpace + "\\") {
      OwnNamespaceFirstPiece(className);
    } else {
      SplitFirstPiece(className, '\\');
    }
  }

  lemma OwnNamespaceFirstPiece(className: string)
    requires HasPrefix(className, PluginSpace + "\\")
    ensures Split(className, "\\")[0] == PluginSpace
  {
    var rest := className[|PluginSpace| + 1..];
    assert className == PluginSpace + "\\" + rest;
    SplitAtFirst(PluginSpace, "\\", rest);
  }

  /** A handled class is looked for at the normalized path of its name below
      `src/`, and required exactly when that path is readable. */
  lemma AutoloadLooksUnderSource(className: string, rest: string, parentDir: string, folder: string,
                                 readable: set<string>)
    requires className == PluginSpace + "\\" + rest
    ensures var file := NormalizePath(SourceDir(parentDir, folder) + rest + ".php");
      AutoloadClass(className, parentDir, folder, readable) ==
        (if file in readable then Required(file) else NotReadable(file))
  {
    SplitAtFirst(PluginSpace, "\\", rest);
    if |rest| == 0 {
      assert |className| == |PluginSpace| + 1;
    } else {
      assert className[|PluginSpace| + 1..] == rest;
    }
  }

  /** The file required for a class is always a normalized path. */
  lemma RequiredFileNormalized(className: string, parentDir: string, folder: string, readable: set<string>)
    ensures AutoloadClass(className, parentDir, folder, readable).Required? ==>
      Normalized(AutoloadClass(className, parentDir, folder, readable).file) &&
      AutoloadClass(className, parentDir, folder, readable).file in readable
  {
    var relative := if |className| > |PluginSpace| + 1 then className[|PluginSpace| + 1..] else "";
    NormalizePathNormalized(SourceDir(parentDir, folder) + relative + ".php");
  }
}
