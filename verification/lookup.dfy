/** Where an icon's SVG source is looked up. The filesystem is the set of
    paths that exist; a path is its sequence of components under the
    working directory. */
module Lookup {
  import opened Wrappers

  type Path = seq<string>

  /** `material-icons-repo/symbols/web`, one directory per icon. */
  const SvgBase: Path := ["material-icons-repo", "symbols", "web"]

  const OutlinedStyle := "materialsymbolsoutlined"

  /** File-name endings in order of preference, largest rendering first. */
  const SizeSuffixes: seq<string> := ["_48px.svg", "_40px.svg", "_24px.svg", "_20px.svg"]

  function IconDir(icon: string): Path { SvgBase + [icon] }

  function OutlinedDir(icon: string): Path { IconDir(icon) + [OutlinedStyle] }

  /** The files probed for `icon`, in probing order. */
  function Candidates(icon: string): seq<Path>
  {
    seq(|SizeSuffixes|, j requires 0 <= j < |SizeSuffixes| => OutlinedDir(icon) + [icon + SizeSuffixes[j]])
  }

  /** Index of the first path that exists. */
  function FirstExisting(paths: seq<Path>, existing: set<Path>): (r: Option<nat>)
    ensures r.Some? ==> r.value < |paths| && paths[r.value] in existing
    ensures r.Some? ==> forall j :: 0 <= j < r.value ==> paths[j] !in existing
    ensures r.None? ==> forall j :: 0 <= j < |paths| ==> paths[j] !in existing
  {
    if |paths| == 0 then None
    else if paths[0] in existing then Some(0)
    else match FirstExisting(paths[1..], existing)
      case None => None
      case Some(j) => Some(j + 1)
  }

  /** `find_svg_file`: a found file exists, sits under an existing icon
      directory and outlined sub-directory, and is one of the probed
      candidates. */
  function FindSvgFile(existing: set<Path>, icon: string): (r: Option<Path>)
    ensures IconDir(icon) !in existing || OutlinedDir(icon) !in existing ==> r.None?
    ensures r.Some? ==> r.value in existing && r.value in Candidates(icon)
    ensures r.Some? ==> IconDir(icon) in existing && OutlinedDir(icon) in existing
  {
    if IconDir(icon) !in existing || OutlinedDir(icon) !in existing then None
    else match FirstExisting(Candidates(icon), existing)
      case None => None
      case Some(j) => Some(Candidates(icon)[j])
  }

  /** The lookup finds a file exactly when the icon directory, its
      outlined sub-directory and at least one sized file exist; what it
      finds is the largest sized file that exists. */
  lemma FindSvgFilePrefersLargest(existing: set<Path>, icon: string)
    ensures FindSvgFile(existing, icon).Some? <==>
      && IconDir(icon) in existing && OutlinedDir(icon) in existing
      && exists j :: 0 <= j < |SizeSuffixes| && OutlinedDir(icon) + [icon + SizeSuffixes[j]] in existing
    ensures FindSvgFile(existing, icon).Some? ==>
      exists j :: 0 <= j < |SizeSuffixes|
        && FindSvgFile(existing, icon).value == OutlinedDir(icon) + [icon + SizeSuffixes[j]]
        && FindSvgFile(existing, icon).value in existing
        && forall i :: 0 <= i < j ==> OutlinedDir(icon) + [icon + SizeSuffixes[i]] !in existing
  {
    var c := Candidates(icon);
    if IconDir(icon) in existing && OutlinedDir(icon) in existing {
      match FirstExisting(c, existing)
      case None =>
        forall j | 0 <= j < |SizeSuffixes| ensures OutlinedDir(icon) + [icon + SizeSuffixes[j]] !in existing {
          assert c[j] == OutlinedDir(icon) + [icon + SizeSuffixes[j]];
        }
      case Some(j) =>
        assert c[j] == OutlinedDir(icon) + [icon + SizeSuffixes[j]];
        forall i | 0 <= i < j ensures OutlinedDir(icon) + [icon + SizeSuffixes[i]] !in existing {
          assert c[i] == OutlinedDir(icon) + [icon + SizeSuffixes[i]];
        }
    }
  }

  /** Only the icon's own directory, sub-directory and sized files matter:
      two filesystems that agree on those give the same answer. */
  lemma FindSvgFileLocal(a: set<Path>, b: set<Path>, icon: string)
    requires IconDir(icon) in a <==> IconDir(icon) in b
    requires OutlinedDir(icon) in a <==> OutlinedDir(icon) in b
    requires forall j :: 0 <= j < |SizeSuffixes| ==>
      (OutlinedDir(icon) + [icon + SizeSuffixes[j]] in a <==> OutlinedDir(icon) + [icon + SizeSuffixes[j]] in b)
    ensures FindSvgFile(a, icon) == FindSvgFile(b, icon)
  {
    FindSvgFilePrefersLargest(a, icon);
    FindSvgFilePrefersLargest(b, icon);
    var c := OutlinedDir(icon);
    if FindSvgFile(a, icon).Some? && FindSvgFile(b, icon).Some? {
      var ja :| 0 <= ja < |SizeSuffixes| && FindSvgFile(a, icon).value == c + [icon + SizeSuffixes[ja]]
        && FindSvgFile(a, icon).value in a && forall i :: 0 <= i < ja ==> c + [icon + SizeSuffixes[i]] !in a;
      var jb :| 0 <= jb < |SizeSuffixes| && FindSvgFile(b, icon).value == c + [icon + SizeSuffixes[jb]]
        && FindSvgFile(b, icon).value in b && forall i :: 0 <= i < jb ==> c + [icon + SizeSuffixes[i]] !in b;
      assert ja == jb;
    }
  }
}
