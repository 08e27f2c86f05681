/** How `classify_image` assembles its Gemini request: the MIME type from the
    file extension, the prompt, and the ordered `parts` list with the
    reference images gathered per label by `load_reference_images`. */
module ImageRequest {
  import opened Base

  // ---------------------------------------------------------------
  // File extensions: `os.path.splitext(path)[1].lower()`.
  // ---------------------------------------------------------------

  /** Python `s.rfind(c)`: the last index of `c`, or -1. */
  function LastIndexOf(s: string, c: char): (i: int)
    ensures -1 <= i < |s|
    ensures i >= 0 ==> s[i] == c
    ensures forall k :: i < k < |s| ==> s[k] != c
  {
    LastIndexBelow(s, c, |s|)
  }

  function LastIndexBelow(s: string, c: char, j: nat): (i: int)
    requires j <= |s|
    ensures -1 <= i < j
    ensures i >= 0 ==> s[i] == c
    ensures forall k :: i < k < j ==> s[k] != c
  {
    if j == 0 then -1
    else if s[j - 1] == c then j - 1
    else LastIndexBelow(s, c, j - 1)
  }

  /** Some character of `s[lo..hi]` is not a dot. */
  predicate HasNonDot(s: string, lo: int, hi: int) {
    exists k :: lo <= k < hi && 0 <= k < |s| && s[k] != '.'
  }

  /** POSIX `os.path.splitext(p)[1]`: from the last dot of the last path
      component, provided that dot is not part of the component's leading dots. */
  function Extension(p: string): (e: string)
    ensures |e| <= |p| && e == p[|p| - |e|..]
    ensures e != "" ==> e[0] == '.'
    ensures forall k :: |p| - |e| < k < |p| ==> p[k] != '.' && p[k] != '/'
  {
    var sepIndex := LastIndexOf(p, '/');
    var dotIndex := LastIndexOf(p, '.');
    if dotIndex > sepIndex && HasNonDot(p, sepIndex + 1, dotIndex) then p[dotIndex..] else ""
  }

  /** A name whose last component ends in something other than a dot,
      followed by a dot-led suffix free of dots and slashes, has exactly that
      suffix as its extension. */
  lemma ExtensionOfName(stem: string, ext: string)
    requires |stem| > 0 && stem[|stem| - 1] != '/' && stem[|stem| - 1] != '.'
    requires |ext| > 0 && ext[0] == '.' && forall k :: 1 <= k < |ext| ==> ext[k] != '.' && ext[k] != '/'
    ensures Extension(stem + ext) == ext
  {
    var p := stem + ext;
    var sepIndex := LastIndexOf(p, '/');
    var dotIndex := LastIndexOf(p, '.');
    assert p[|stem|] == '.';
    assert dotIndex == |stem|;
    assert sepIndex < |stem| - 1 by {
      assert p[|stem| - 1] != '/';
    }
    assert p[|stem| - 1] != '.';
    assert HasNonDot(p, sepIndex + 1, dotIndex);
    assert p[dotIndex..] == ext;
  }

  /** A last component made only of dots after its first character, such as
      a dot-file, has no extension. */
  lemma NoExtensionForDotFile(dir: string, name: string)
    requires |name| > 0 && name[0] == '.'
    requires forall k :: 1 <= k < |name| ==> name[k] != '.' && name[k] != '/'
    ensures Extension(dir + "/" + name) == ""
  {
    var p := dir + "/" + name;
    var sepIndex := LastIndexOf(p, '/');
    var dotIndex := LastIndexOf(p, '.');
    assert p[|dir|] == '/' && p[|dir| + 1] == '.';
    assert sepIndex == |dir|;
    assert dotIndex == |dir| + 1;
  }

  function LowerChar(c: char): char {
    if 'A' <= c <= 'Z' then (c as int - 'A' as int + 'a' as int) as char else c
  }

  /** `str.lower()` on ASCII letters. */
  function Lower(s: string): (r: string)
    ensures |r| == |s|
    ensures forall k :: 0 <= k < |s| ==> r[k] == LowerChar(s[k])
  {
    seq(|s|, k requires 0 <= k < |s| => LowerChar(s[k]))
  }

  /** Lowering twice is lowering once. */
  lemma LowerIdempotent(s: string)
    ensures Lower(Lower(s)) == Lower(s)
  {
    var once := Lower(s);
    forall k | 0 <= k < |s|
      ensures Lower(once)[k] == once[k]
    {
      assert LowerChar(LowerChar(s[k])) == LowerChar(s[k]);
    }
  }

  // ---------------------------------------------------------------
  // MIME types (lines 169-179 and 295-300).
  // ---------------------------------------------------------------

  const MimeTypes: set<string> := {"image/jpeg", "image/png", "image/webp"}
  const KnownExtensions: set<string> := {".jpg", ".jpeg", ".png", ".webp"}

  /** The extension-to-MIME table both call sites share. */
  function KnownMime(ext: string): (m: Option<string>)
    ensures m.Some? <==> ext in KnownExtensions
    ensures m.Some? ==> m.value in MimeTypes
    ensures ext == ".jpg" || ext == ".jpeg" ==> m == Some("image/jpeg")
    ensures ext == ".png" ==> m == Some("image/png")
    ensures ext == ".webp" ==> m == Some("image/webp")
  {
    if ext == ".jpg" || ext == ".jpeg" then Some("image/jpeg")
    else if ext == ".png" then Some("image/png")
    else if ext == ".webp" then Some("image/webp")
    else None
  }

  /** The reference loader's lookup: an unknown extension means "skip the file". */
  function ReferenceMime(fname: string): (m: Option<string>)
    ensures m.Some? <==> Lower(Extension(fname)) in KnownExtensions
    ensures m.Some? ==> m.value in MimeTypes
  {
    KnownMime(Lower(Extension(fname)))
  }

  /** The captured image's lookup: the same table, JPEG when nothing matches. */
  function CaptureMime(path: string): (m: string)
    ensures m in MimeTypes
    ensures ReferenceMime(path).Some? ==> m == ReferenceMime(path).value
    ensures ReferenceMime(path).None? ==> m == "image/jpeg"
  {
    KnownMime(Lower(Extension(path))).GetOr("image/jpeg")
  }

  /** The lookup ignores case: `photo.JPG` and `photo.jpg` get the same type. */
  lemma MimeIgnoresCase(stem: string, ext: string)
    requires |stem| > 0 && stem[|stem| - 1] != '/' && stem[|stem| - 1] != '.'
    requires |ext| > 0 && ext[0] == '.' && forall k :: 1 <= k < |ext| ==> ext[k] != '.' && ext[k] != '/'
    ensures Lower(ext) in KnownExtensions ==> ReferenceMime(stem + ext) == KnownMime(Lower(ext))
    ensures CaptureMime(stem + ext) == KnownMime(Lower(ext)).GetOr("image/jpeg")
    ensures CaptureMime(stem + ext) == CaptureMime(stem + Lower(ext))
  {
    ExtensionOfName(stem, ext);
    var lowered := Lower(ext);
    assert lowered[0] == '.';
    ExtensionOfName(stem, lowered);
    LowerIdempotent(ext);
  }

  // ---------------------------------------------------------------
  // Reference images (lines 140-192).
  // ---------------------------------------------------------------

  const ClassificationLabels: seq<string> := ["tomato_crackers", "bento", "atori"]

  /** One directory entry of `ref/<label>/`: `content` is None when reading it fails. */
  datatype Entry = Entry(name: string, isFile: bool, content: Option<seq<bv8>>)

  /** An image as sent inline; the base64 text of `data` is left to the encoder. */
  datatype Image = Image(mimeType: string, data: seq<bv8>)

  datatype LabelRefs = LabelRefs(labelName: string, images: seq<Image>)

  /** A directory entry the loader keeps: a regular file with a known
      extension whose bytes could be read. */
  predicate Usable(e: Entry) {
    e.isFile && ReferenceMime(e.name).Some? && e.content.Some?
  }

  /** The image a usable entry becomes: its bytes under its extension's type. */
  function ImageOf(e: Entry): (img: Image)
    requires Usable(e)
    ensures img.mimeType == ReferenceMime(e.name).value && img.data == e.content.value
  {
    Image(ReferenceMime(e.name).value, e.content.value)
  }

  /** What one entry adds to `refs`. */
  function Contribution(e: Entry): (c: Option<Image>)
    ensures c.Some? <==> Usable(e)
    ensures c.Some? ==> c.value == ImageOf(e)
  {
    if Usable(e) then Some(ImageOf(e)) else None
  }

  function Contributions(entries: seq<Entry>): (cs: seq<Option<Image>>)
    ensures |cs| == |entries|
    ensures forall k :: 0 <= k < |entries| ==> cs[k] == Contribution(entries[k])
  {
    seq(|entries|, k requires 0 <= k < |entries| => Contribution(entries[k]))
  }

  /** The present values, in order. */
  function Present(xs: seq<Option<Image>>): (r: seq<Image>)
    ensures |r| == CountPresent(xs) <= |xs|
  {
    if |xs| == 0 then [] else (if xs[0].Some? then [xs[0].value] else []) + Present(xs[1..])
  }

  function CountPresent(xs: seq<Option<Image>>): (n: nat)
    ensures n <= |xs|
  {
    if |xs| == 0 then 0 else (if xs[0].Some? then 1 else 0) + CountPresent(xs[1..])
  }

  /** Every value kept was present. */
  lemma {:induction false} PresentFrom(xs: seq<Option<Image>>)
    ensures forall k :: 0 <= k < |Present(xs)| ==> exists j :: 0 <= j < |xs| && xs[j] == Some(Present(xs)[k])
    decreases |xs|
  {
    if |xs| > 0 {
      var rest := xs[1..];
      PresentFrom(rest);
      var u := if xs[0].Some? then 1 else 0;
      var head := if xs[0].Some? then [xs[0].value] else [];
      assert Present(xs) == head + Present(rest);
      forall k | 0 <= k < |Present(xs)|
        ensures exists j :: 0 <= j < |xs| && xs[j] == Some(Present(xs)[k])
      {
        if k >= u {
          assert Present(xs)[k] == Present(rest)[k - u];
          var j :| 0 <= j < |rest| && rest[j] == Some(Present(rest)[k - u]);
          assert xs[j + 1] == rest[j];
        } else {
          assert xs[0] == Some(Present(xs)[k]);
        }
      }
    } else {
      assert Present(xs) == [];
    }
  }

  /** The value of a present entry `k` of a list whose first entry adds
      `u` values sits one position on in the longer list. */
  lemma PresentShift(xs: seq<Option<Image>>, k: nat)
    requires 0 < k < |xs| && xs[k].Some?
    requires CountPresent(xs[1..][..k - 1]) < |Present(xs[1..])|
    requires Present(xs[1..])[CountPresent(xs[1..][..k - 1])] == xs[k].value
    ensures CountPresent(xs[..k]) < |Present(xs)| && Present(xs)[CountPresent(xs[..k])] == xs[k].value
  {
    assert xs[..k][1..] == xs[1..][..k - 1];
  }

  /** Each present value sits at the position given by the number of present
      values before it. */
  lemma {:induction false} PresentOrder(xs: seq<Option<Image>>)
    ensures forall k :: 0 <= k < |xs| && xs[k].Some? ==>
      CountPresent(xs[..k]) < |Present(xs)| && Present(xs)[CountPresent(xs[..k])] == xs[k].value
    decreases |xs|
  {
    if |xs| > 0 {
      var rest := xs[1..];
      PresentOrder(rest);
      forall k | 0 <= k < |xs| && xs[k].Some?
        ensures CountPresent(xs[..k]) < |Present(xs)| && Present(xs)[CountPresent(xs[..k])] == xs[k].value
      {
        if k > 0 {
          assert xs[k] == rest[k - 1];
          PresentShift(xs, k);
        } else {
          assert CountPresent(xs[..0]) == 0;
        }
      }
    }
  }

  /** How many entries of the listing are usable. */
  function CountUsable(entries: seq<Entry>): nat {
    CountPresent(Contributions(entries))
  }

  /** The usable images of one label directory, in listing order: regular
      files with a known extension that could be read. */
  function RefsIn(entries: seq<Entry>): (imgs: seq<Image>)
    ensures |imgs| <= |entries|
    ensures forall k :: 0 <= k < |imgs| ==> imgs[k].mimeType in MimeTypes
    ensures (forall k :: 0 <= k < |entries| ==> ReferenceMime(entries[k].name).None?) ==> imgs == []
  {
    var cs := Contributions(entries);
    var imgs := Present(cs);
    PresentFrom(cs);
    assert forall k :: 0 <= k < |imgs| ==> imgs[k].mimeType in MimeTypes by {
      forall k | 0 <= k < |imgs|
        ensures imgs[k].mimeType in MimeTypes
      {
        var j :| 0 <= j < |cs| && cs[j] == Some(imgs[k]);
        assert imgs[k] == ImageOf(entries[j]);
      }
    }
    assert (forall k :: 0 <= k < |entries| ==> ReferenceMime(entries[k].name).None?) ==> imgs == [] by {
      if |imgs| > 0 {
        var j :| 0 <= j < |cs| && cs[j] == Some(imgs[0]);
        assert Usable(entries[j]);
      }
    }
    imgs
  }

  /** Exactly the usable entries, in listing order: each usable entry's image
      sits at the position given by the number of usable entries before it,
      and the list holds nothing else. */
  lemma RefsInOrder(entries: seq<Entry>)
    ensures |RefsIn(entries)| == CountUsable(entries)
    ensures forall k :: 0 <= k < |entries| && Usable(entries[k]) ==>
      CountUsable(entries[..k]) < |RefsIn(entries)| && RefsIn(entries)[CountUsable(entries[..k])] == ImageOf(entries[k])
  {
    var cs := Contributions(entries);
    PresentOrder(cs);
    forall k | 0 <= k < |entries| && Usable(entries[k])
      ensures CountUsable(entries[..k]) < |RefsIn(entries)|
      ensures RefsIn(entries)[CountUsable(entries[..k])] == ImageOf(entries[k])
    {
      assert Contributions(entries[..k]) == cs[..k];
      assert cs[k] == Some(ImageOf(entries[k]));
    }
  }

  function LabelsOf(groups: seq<LabelRefs>): (ls: seq<string>)
    ensures |ls| == |groups|
    ensures forall i :: 0 <= i < |groups| ==> ls[i] == groups[i].labelName
  {
    seq(|groups|, i requires 0 <= i < |groups| => groups[i].labelName)
  }

  /** The usable images found under each label directory that exists. */
  function ImagesByLabel(dirs: map<string, seq<Entry>>): (found: map<string, seq<Image>>)
    ensures found.Keys == dirs.Keys
    ensures forall l :: l in dirs ==> found[l] == RefsIn(dirs[l])
  {
    map l | l in dirs :: RefsIn(dirs[l])
  }

  /** One group per label with at least one image, in label order (lines 158-190). */
  function KeepNonEmpty(labels: seq<string>, found: map<string, seq<Image>>): (groups: seq<LabelRefs>)
    ensures |groups| <= |labels|
    ensures forall i :: 0 <= i < |groups| ==>
      && groups[i].labelName in labels
      && groups[i].labelName in found
      && groups[i].images == found[groups[i].labelName]
      && |groups[i].images| > 0
  {
    if |labels| == 0 then []
    else
      var l := labels[0];
      var rest := KeepNonEmpty(labels[1..], found);
      assert forall m :: m in labels[1..] ==> m in labels;
      if l in found && |found[l]| > 0 then [LabelRefs(l, found[l])] + rest else rest
  }

  /** A label gets a group exactly when it was found with at least one image. */
  lemma {:induction false} KeepNonEmptyLabels(labels: seq<string>, found: map<string, seq<Image>>)
    ensures forall l :: l in labels ==>
      (l in LabelsOf(KeepNonEmpty(labels, found)) <==> l in found && |found[l]| > 0)
    decreases |labels|
  {
    if |labels| > 0 {
      var l := labels[0];
      var rest := KeepNonEmpty(labels[1..], found);
      KeepNonEmptyLabels(labels[1..], found);
      var groups := KeepNonEmpty(labels, found);
      if l in found && |found[l]| > 0 {
        assert LabelsOf(groups) == [l] + LabelsOf(rest);
      } else {
        assert groups == rest;
      }
      forall m | m in labels
        ensures m in LabelsOf(groups) <==> m in found && |found[m]| > 0
      {
        if m != l {
          assert m in labels[1..];
        } else if m !in labels[1..] {
          assert forall i :: 0 <= i < |rest| ==> rest[i].labelName in labels[1..];
          assert m !in LabelsOf(rest);
        }
      }
    }
  }

  /** `xs` is `ys` with some elements left out, the rest kept in order. */
  predicate Subsequence(xs: seq<string>, ys: seq<string>)
    decreases |ys|
  {
    if |xs| == 0 then true
    else if |ys| == 0 then false
    else (xs[0] == ys[0] && Subsequence(xs[1..], ys[1..])) || Subsequence(xs, ys[1..])
  }

  predicate Distinct(xs: seq<string>) {
    forall i, j :: 0 <= i < j < |xs| ==> xs[i] != xs[j]
  }

  lemma {:induction false} SubsequenceMembers(xs: seq<string>, ys: seq<string>)
    requires Subsequence(xs, ys)
    ensures forall x :: x in xs ==> x in ys
    decreases |ys|
  {
    if |xs| > 0 {
      if xs[0] == ys[0] && Subsequence(xs[1..], ys[1..]) {
        SubsequenceMembers(xs[1..], ys[1..]);
        forall x | x in xs
          ensures x in ys
        {
          if x != xs[0] {
            assert x in xs[1..];
          }
        }
      } else {
        SubsequenceMembers(xs, ys[1..]);
      }
    }
  }

  /** Leaving elements out of a list without repetitions keeps it without repetitions. */
  lemma {:induction false} SubsequenceDistinct(xs: seq<string>, ys: seq<string>)
    requires Subsequence(xs, ys) && Distinct(ys)
    ensures Distinct(xs)
    decreases |ys|
  {
    if |xs| > 0 {
      assert Distinct(ys[1..]);
      if xs[0] == ys[0] && Subsequence(xs[1..], ys[1..]) {
        SubsequenceDistinct(xs[1..], ys[1..]);
        SubsequenceMembers(xs[1..], ys[1..]);
        forall i, j | 0 <= i < j < |xs|
          ensures xs[i] != xs[j]
        {
          assert xs[j] == xs[1..][j - 1] && xs[j] in ys[1..];
          if i > 0 {
            assert xs[i] == xs[1..][i - 1];
          }
        }
      } else {
        SubsequenceDistinct(xs, ys[1..]);
      }
    }
  }

  /** The kept groups follow the order of the labels. */
  lemma {:induction false} KeepNonEmptyInOrder(labels: seq<string>, found: map<string, seq<Image>>)
    ensures Subsequence(LabelsOf(KeepNonEmpty(labels, found)), labels)
    decreases |labels|
  {
    if |labels| > 0 {
      var l := labels[0];
      var rest := KeepNonEmpty(labels[1..], found);
      KeepNonEmptyInOrder(labels[1..], found);
      var ls := LabelsOf(KeepNonEmpty(labels, found));
      if l in found && |found[l]| > 0 {
        assert ls == [l] + LabelsOf(rest);
        assert ls[1..] == LabelsOf(rest);
      } else {
        assert ls == LabelsOf(rest);
      }
    }
  }

  /** `load_reference_images`: `refDir` is None when `ref/` is not a
      directory, and a label missing from it has no directory of its own. */
  function LoadReferences(refDir: Option<map<string, seq<Entry>>>): (groups: seq<LabelRefs>)
    ensures refDir.None? ==> groups == []
    ensures forall i :: 0 <= i < |groups| ==>
      && groups[i].labelName in ClassificationLabels
      && refDir.Some? && groups[i].labelName in refDir.value
      && groups[i].images == RefsIn(refDir.value[groups[i].labelName])
      && |groups[i].images| > 0
  {
    if refDir.None? then [] else KeepNonEmpty(ClassificationLabels, ImagesByLabel(refDir.value))
  }

  /** A label is listed exactly when its directory holds a usable image. */
  lemma LoadReferencesLabels(refDir: Option<map<string, seq<Entry>>>, l: string)
    requires l in ClassificationLabels
    ensures l in LabelsOf(LoadReferences(refDir)) <==>
      refDir.Some? && l in refDir.value && |RefsIn(refDir.value[l])| > 0
  {
    if refDir.Some? {
      KeepNonEmptyLabels(ClassificationLabels, ImagesByLabel(refDir.value));
    }
  }

  /** The groups come in the order of `CLASSIFICATION_LABELS`, one per label
    at most: with `LoadReferencesLabels`, this fixes the group list. */
  lemma LoadReferencesInOrder(refDir: Option<map<string, seq<Entry>>>)
    ensures Subsequence(LabelsOf(LoadReferences(refDir)), ClassificationLabels)
    ensures Distinct(LabelsOf(LoadReferences(refDir)))
  {
    if refDir.Some? {
      KeepNonEmptyInOrder(ClassificationLabels, ImagesByLabel(refDir.value));
    }
    SubsequenceDistinct(LabelsOf(LoadReferences(refDir)), ClassificationLabels);
  }

  // ---------------------------------------------------------------
  // The prompt and the parts list (lines 93-97, 302-329).
  // ---------------------------------------------------------------

  /** `sep.join(xs)`. */
  function Join(sep: string, xs: seq<string>): string {
    if |xs| == 0 then ""
    else if |xs| == 1 then xs[0]
    else xs[0] + sep + Join(sep, xs[1..])
  }

  const DefaultPrompt: string :=
    "Analyze the product or object in the image. Which of the following labels best applies: "
    + Join(", ", ClassificationLabels)
    + "? Provide only the selected label (e.g., 'bento') or 'NONE' if no label fits."

  /** `custom_prompt if custom_prompt else DEFAULT_PROMPT`. */
  function UserQuery(customPrompt: Option<string>): (q: string)
    ensures customPrompt.Some? && customPrompt.value != "" ==> q == customPrompt.value
    ensures customPrompt.None? || customPrompt.value == "" ==> q == DefaultPrompt
  {
    match customPrompt
    case Some(p) => if p != "" then p else DefaultPrompt
    case None => DefaultPrompt
  }

  datatype Part = Text(text: string) | InlineData(mimeType: string, data: seq<bv8>)

  function Header(labelName: string): string {
    "Reference images for '" + labelName + "':"
  }

  function Inline(img: Image): Part {
    InlineData(img.mimeType, img.data)
  }

  /** One label's parts: its header, then one inline part per image, in order. */
  function GroupParts(g: LabelRefs): (parts: seq<Part>)
    ensures |parts| == 1 + |g.images|
    ensures parts[0] == Text(Header(g.labelName))
    ensures forall j :: 0 <= j < |g.images| ==> parts[1 + j] == Inline(g.images[j])
  {
    [Text(Header(g.labelName))] + seq(|g.images|, j requires 0 <= j < |g.images| => Inline(g.images[j]))
  }

  function TotalImages(groups: seq<LabelRefs>): nat {
    if |groups| == 0 then 0 else |groups[0].images| + TotalImages(groups[1..])
  }

  /** Each label's header text followed by that label's images, label by label. */
  function ReferenceParts(groups: seq<LabelRefs>): (parts: seq<Part>)
    ensures |parts| == |groups| + TotalImages(groups)
    ensures |groups| > 0 ==> parts[0] == Text(Header(groups[0].labelName))
  {
    if |groups| == 0 then [] else GroupParts(groups[0]) + ReferenceParts(groups[1..])
  }

  /** The reference parts of two runs of groups are the parts of each, in order. */
  lemma {:induction false} ReferencePartsAppend(a: seq<LabelRefs>, b: seq<LabelRefs>)
    ensures ReferenceParts(a + b) == ReferenceParts(a) + ReferenceParts(b)
    decreases |a|
  {
    if |a| > 0 {
      var head := GroupParts(a[0]);
      assert (a + b)[0] == a[0] && (a + b)[1..] == a[1..] + b;
      ReferencePartsAppend(a[1..], b);
      calc {
        ReferenceParts(a + b);
        head + ReferenceParts(a[1..] + b);
        head + (ReferenceParts(a[1..]) + ReferenceParts(b));
        (head + ReferenceParts(a[1..])) + ReferenceParts(b);
        ReferenceParts(a) + ReferenceParts(b);
      }
    } else {
      assert a + b == b;
    }
  }

  /** Group `g` sits at offset `off` of `parts`: its header, then its
      images in their loaded order. */
  predicate LaidOutAt(parts: seq<Part>, off: nat, g: LabelRefs) {
    && off + 1 + |g.images| <= |parts|
    && parts[off] == Text(Header(g.labelName))
    && forall j :: 0 <= j < |g.images| ==> parts[off + 1 + j] == Inline(g.images[j])
  }

  /** The first group's parts come first. */
  lemma FirstGroupLayout(groups: seq<LabelRefs>)
    requires |groups| > 0
    ensures LaidOutAt(ReferenceParts(groups), 0, groups[0])
  {
    var head := GroupParts(groups[0]);
    var parts := ReferenceParts(groups);
    assert parts == head + ReferenceParts(groups[1..]);
    forall j | 0 <= j < |groups[0].images|
      ensures parts[1 + j] == Inline(groups[0].images[j])
    {
      assert parts[1 + j] == head[1 + j];
    }
  }

  /** A layout survives putting more parts in front, shifted by their number. */
  lemma LaidOutAfter(front: seq<Part>, back: seq<Part>, g: LabelRefs)
    requires LaidOutAt(back, 0, g)
    ensures LaidOutAt(front + back, |front|, g)
  {
    var parts := front + back;
    forall j | 0 <= j < |g.images|
      ensures parts[|front| + 1 + j] == Inline(g.images[j])
    {
      assert parts[|front| + 1 + j] == back[1 + j];
    }
  }

  /** The reference parts split at any group boundary. */
  lemma ReferencePartsSplit(groups: seq<LabelRefs>, i: nat)
    requires i <= |groups|
    ensures ReferenceParts(groups) == ReferenceParts(groups[..i]) + ReferenceParts(groups[i..])
  {
    assert groups == groups[..i] + groups[i..];
    ReferencePartsAppend(groups[..i], groups[i..]);
  }

  /** Group i's header sits right after the parts of the groups before it,
      and its images follow the header in their loaded order. */
  lemma GroupLayout(groups: seq<LabelRefs>, i: nat)
    requires i < |groups|
    ensures LaidOutAt(ReferenceParts(groups), i + TotalImages(groups[..i]), groups[i])
  {
    ReferencePartsSplit(groups, i);
    assert groups[i..][0] == groups[i];
    FirstGroupLayout(groups[i..]);
    LaidOutAfter(ReferenceParts(groups[..i]), ReferenceParts(groups[i..]), groups[i]);
  }

  /** The request `parts`: the prompt, the captured image, then the reference groups. */
  function BuildParts(customPrompt: Option<string>, capturePath: string, captureData: seq<bv8>,
                      groups: seq<LabelRefs>): (parts: seq<Part>)
    ensures |parts| == 2 + |groups| + TotalImages(groups)
    ensures parts[0] == Text(UserQuery(customPrompt))
    ensures parts[1] == InlineData(CaptureMime(capturePath), captureData)
    ensures parts[2..] == ReferenceParts(groups)
  {
    [Text(UserQuery(customPrompt)), InlineData(CaptureMime(capturePath), captureData)] + ReferenceParts(groups)
  }
}
