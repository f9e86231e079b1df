/** File names and extensions as `System.IO.Path` computes them on Unix, and the
    flattening of a decompiled help file into one directory of pages. */
module Paths {
  import opened Text

  const DirectorySeparator := '/'

  /** `Path.GetFileName`: the part after the last separator. */
  function FileName(p: string): string
  {
    if p == [] || p[|p| - 1] == DirectorySeparator then []
    else FileName(p[..|p| - 1]) + [p[|p| - 1]]
  }

  /** The file name is the longest separator-free suffix of the path. */
  lemma {:induction false} FileNameSpec(p: string)
    ensures |FileName(p)| <= |p| && FileName(p) == p[|p| - |FileName(p)|..]
    ensures DirectorySeparator !in FileName(p)
    ensures |FileName(p)| < |p| ==> p[|p| - |FileName(p)| - 1] == DirectorySeparator
  {
    FileNameSuffix(p);
    FileNameNoSeparator(p);
    FileNameBoundary(p);
  }

  lemma {:induction false} FileNameSuffix(p: string)
    ensures |FileName(p)| <= |p| && FileName(p) == p[|p| - |FileName(p)|..]
    decreases |p|
  {
    if p != [] && p[|p| - 1] != DirectorySeparator {
      var front := p[..|p| - 1];
      FileNameSuffix(front);
      var n := |FileName(front)|;
      assert FileName(front) == p[|p| - 1 - n..|p| - 1];
      assert p[|p| - 1..] == [p[|p| - 1]];
      assert p[|p| - 1 - n..] == p[|p| - 1 - n..|p| - 1] + p[|p| - 1..];
    }
  }

  lemma {:induction false} FileNameNoSeparator(p: string)
    ensures DirectorySeparator !in FileName(p)
    decreases |p|
  {
    if p != [] && p[|p| - 1] != DirectorySeparator {
      var front := p[..|p| - 1];
      FileNameNoSeparator(front);
      assert FileName(p) == FileName(front) + [p[|p| - 1]];
    }
  }

  lemma {:induction false} FileNameBoundary(p: string)
    ensures |FileName(p)| < |p| ==> p[|p| - |FileName(p)| - 1] == DirectorySeparator
    decreases |p|
  {
    if p != [] && p[|p| - 1] != DirectorySeparator {
      var front := p[..|p| - 1];
      FileNameBoundary(front);
      assert |FileName(p)| == |FileName(front)| + 1;
      if |FileName(p)| < |p| {
        assert front[|front| - |FileName(front)| - 1] == p[|p| - |FileName(p)| - 1];
      }
    }
  }

  /** `Path.GetExtension`: scanning back from the end of the last segment, the suffix
      from the last dot; empty when there is no dot or the dot ends the path. */
  function Extension(p: string): string
  {
    ExtensionBefore(p, |p|)
  }

  function ExtensionBefore(p: string, i: nat): string
    requires i <= |p|
    decreases i
  {
    if i == 0 then []
    else if p[i - 1] == '.' then (if i == |p| then [] else p[i - 1..])
    else if p[i - 1] == DirectorySeparator then []
    else ExtensionBefore(p, i - 1)
  }

  /** A non-empty extension is a suffix of the final segment made of a dot and at
      least one further character, none of them a dot or a separator. */
  lemma ExtensionSpec(p: string)
    ensures var r := Extension(p);
      r == [] || (2 <= |r| <= |p| && r == p[|p| - |r|..] && r[0] == '.'
                  && forall i :: 0 < i < |r| ==> r[i] != '.' && r[i] != DirectorySeparator)
  {
    ExtensionBeforeSpec(p, |p|);
  }

  lemma {:induction false} ExtensionBeforeSpec(p: string, i: nat)
    requires i <= |p|
    requires forall j :: i <= j < |p| ==> p[j] != '.' && p[j] != DirectorySeparator
    ensures var r := ExtensionBefore(p, i);
      r == [] || (2 <= |r| <= |p| && r == p[|p| - |r|..] && r[0] == '.'
                  && forall j :: 0 < j < |r| ==> r[j] != '.' && r[j] != DirectorySeparator)
    decreases i
  {
    if i > 0 && p[i - 1] != '.' && p[i - 1] != DirectorySeparator {
      ExtensionBeforeSpec(p, i - 1);
    }
  }

  /** Conversely, a dot followed by at least one character that is neither a dot nor
      a separator, at the end of the path, is its extension. */
  lemma ExtensionOfSuffix(p: string, e: string)
    requires 2 <= |e| && EndsWith(p, e) && e[0] == '.'
    requires forall i :: 0 < i < |e| ==> e[i] != '.' && e[i] != DirectorySeparator
    ensures Extension(p) == e
  {
    ExtensionBeforeFinds(p, |p|, |p| - |e|);
  }

  lemma {:induction false} ExtensionBeforeFinds(p: string, i: nat, k: nat)
    requires k < i <= |p| && k + 1 < |p| && p[k] == '.'
    requires forall j :: k < j < |p| ==> p[j] != '.' && p[j] != DirectorySeparator
    ensures ExtensionBefore(p, i) == p[k..]
    decreases i
  {
    if i - 1 > k {
      ExtensionBeforeFinds(p, i - 1, k);
    }
  }

  /** A well-formed extension is the path's extension exactly when the path ends in it. */
  lemma ExtensionIff(p: string, e: string)
    requires 2 <= |e| && e[0] == '.'
    requires forall i :: 0 < i < |e| ==> e[i] != '.' && e[i] != DirectorySeparator
    ensures Extension(p) == e <==> EndsWith(p, e)
  {
    ExtensionSpec(p);
    if EndsWith(p, e) {
      ExtensionOfSuffix(p, e);
    }
  }

  /** A file is a page exactly when its path ends in ".html" or ".htm", case-sensitively. */
  lemma PageFileSpec(p: string)
    ensures Extension(p) == ".html" <==> EndsWith(p, ".html")
    ensures Extension(p) == ".htm" <==> EndsWith(p, ".htm")
    ensures IsPageFile(p) <==> EndsWith(p, ".html") || EndsWith(p, ".htm")
  {
    var html, htm := ".html", ".htm";
    assert forall i :: 0 < i < |html| ==> html[i] != '.' && html[i] != DirectorySeparator;
    assert forall i :: 0 < i < |htm| ==> htm[i] != '.' && htm[i] != DirectorySeparator;
    ExtensionIff(p, html);
    ExtensionIff(p, htm);
  }

  /** The files the copy keeps: extension exactly ".html" or ".htm", case-sensitive. */
  predicate IsPageFile(p: string)
  {
    Extension(p) == ".html" || Extension(p) == ".htm"
  }

  /** `p` is copied to the target directory under the name `name`. */
  predicate CopiedAs(p: string, name: string)
  {
    IsPageFile(p) && FileName(p) == name
  }

  /** The index of the last source, in enumeration order, that is copied under `name`. */
  function LastCopiedAs(sources: seq<string>, name: string): (r: Option<nat>)
    ensures r.Some? ==> r.value < |sources| && CopiedAs(sources[r.value], name)
    ensures r.Some? ==> forall j :: r.value < j < |sources| ==> !CopiedAs(sources[j], name)
    ensures r.None? ==> forall j :: 0 <= j < |sources| ==> !CopiedAs(sources[j], name)
    decreases |sources|
  {
    if sources == [] then None
    else if CopiedAs(sources[|sources| - 1], name) then Some(|sources| - 1)
    else
      var front := sources[..|sources| - 1];
      assert forall j :: 0 <= j < |front| ==> front[j] == sources[j];
      LastCopiedAs(front, name)
  }

  /** Copies every page of `sources` into a flat directory `target` (name to source
      path), overwriting: the result has one entry per page file name, holding the
      last page of that name, and keeps the other entries of `target`. */
  method CopyHtmlFiles(sources: seq<string>, target: map<string, string>) returns (result: map<string, string>)
    ensures forall n :: LastCopiedAs(sources, n).Some? ==>
              n in result && result[n] == sources[LastCopiedAs(sources, n).value]
    ensures forall n :: LastCopiedAs(sources, n).None? ==>
              (n in result <==> n in target) && (n in target ==> result[n] == target[n])
  {
    result := target;
    var i := 0;
    while i < |sources|
      invariant 0 <= i <= |sources|
      invariant forall n :: LastCopiedAs(sources[..i], n).Some? ==>
                  n in result && result[n] == sources[LastCopiedAs(sources[..i], n).value]
      invariant forall n :: LastCopiedAs(sources[..i], n).None? ==>
                  (n in result <==> n in target) && (n in target ==> result[n] == target[n])
    {
      var file := sources[i];
      assert sources[..i + 1][..i] == sources[..i];
      if IsPageFile(file) {
        result := result[FileName(file) := file];
      }
      i := i + 1;
    }
    assert sources[..i] == sources;
  }
}
