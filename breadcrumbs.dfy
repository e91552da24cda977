/** The breadcrumb trail of the top bar: "Home", then one crumb per segment
    of the current path, each linking to the path up to that segment and
    labelled with the segment's hyphen-separated words capitalised. */
module Breadcrumbs {
  import opened Seqs
  import opened Text

  datatype Crumb = Crumb(title: string, href: string)  // `label` is a Dafny keyword

  /** The crumb every trail starts with. */
  const Home: Crumb := Crumb("Home", "/dashboard")

  /** `pathname.split('/').filter(segment => segment)`. */
  function Segments(pathname: string): (r: seq<string>)
    ensures forall i :: 0 <= i < |r| ==> r[i] != [] && '/' !in r[i]
  {
    Filter(Split(pathname, '/'), segment => segment != [])
  }

  /** `word.charAt(0).toUpperCase() + word.slice(1)`. */
  function Capitalize(word: string): (r: string)
    ensures |r| == |word|
    ensures word != [] ==> r[0] == UpperChar(word[0]) && r[1..] == word[1..]
  {
    if word == [] then [] else [UpperChar(word[0])] + word[1..]
  }

  function CapitalizeAll(words: seq<string>): (r: seq<string>)
    ensures |r| == |words|
    ensures forall i :: 0 <= i < |r| ==> r[i] == Capitalize(words[i])
  {
    seq(|words|, i requires 0 <= i < |words| => Capitalize(words[i]))
  }

  /** A crumb's label: the segment split at '-', each word capitalised, the
      words joined with single spaces. */
  function Label(segment: string): string {
    Join(CapitalizeAll(Split(segment, '-')), ' ')
  }

  /** The label character by character: each hyphen becomes a space, the
      first character and each one after a hyphen is upper-cased, and every
      other character is kept. */
  lemma LabelSpelling(segment: string)
    ensures |Label(segment)| == |segment|
    ensures forall i :: 0 <= i < |segment| ==> Label(segment)[i] == LabelChar(segment, i)
  {
    JoinSplit(segment, '-');
    JoinCapitalized(Split(segment, '-'));
  }

  /** What position `i` of a segment turns into in its label. */
  function LabelChar(segment: string, i: nat): char
    requires i < |segment|
  {
    if segment[i] == '-' then ' '
    else if i == 0 || segment[i - 1] == '-' then UpperChar(segment[i])
    else segment[i]
  }

  /** A capitalised hyphen-free word spells the word as its label would. */
  lemma CapitalizedWord(w: string)
    requires '-' !in w
    ensures forall i :: 0 <= i < |w| ==> Capitalize(w)[i] == LabelChar(w, i)
  {
  }

  /** Prefixing a hyphen-free word and a hyphen keeps the position-by-position
      spelling. */
  lemma CapitalizedConcat(w: string, s: string, r: string)
    requires '-' !in w
    requires |r| == |s| && forall j :: 0 <= j < |s| ==> r[j] == LabelChar(s, j)
    ensures |Capitalize(w) + [' '] + r| == |w + ['-'] + s|
    ensures forall i :: 0 <= i < |w + ['-'] + s| ==>
      (Capitalize(w) + [' '] + r)[i] == LabelChar(w + ['-'] + s, i)
  {
    var s2, r2 := w + ['-'] + s, Capitalize(w) + [' '] + r;
    CapitalizedWord(w);
    forall i | 0 <= i < |s2| ensures r2[i] == LabelChar(s2, i) {
      if i < |w| {
        assert s2[i] == w[i] && r2[i] == Capitalize(w)[i];
        assert LabelChar(s2, i) == LabelChar(w, i);
      } else if i > |w| {
        var j := i - |w| - 1;
        assert s2[i] == s[j] && r2[i] == r[j];
        assert j > 0 ==> s2[i - 1] == s[j - 1];
      }
    }
  }

  /** Capitalising hyphen-free words and joining them with spaces maps their
      hyphen-joined form position by position. */
  lemma {:induction false} JoinCapitalized(words: seq<string>)
    requires forall k :: 0 <= k < |words| ==> '-' !in words[k]
    ensures |Join(CapitalizeAll(words), ' ')| == |Join(words, '-')|
    ensures forall i :: 0 <= i < |Join(words, '-')| ==>
      Join(CapitalizeAll(words), ' ')[i] == LabelChar(Join(words, '-'), i)
  {
    if |words| == 1 {
      assert CapitalizeAll(words) == [Capitalize(words[0])];
      CapitalizedWord(words[0]);
    } else if |words| > 1 {
      var rest := words[1..];
      JoinCapitalized(rest);
      assert CapitalizeAll(words)[1..] == CapitalizeAll(rest);
      CapitalizedConcat(words[0], Join(rest, '-'), Join(CapitalizeAll(rest), ' '));
    }
  }

  /** The trail for a list of segments, stated directly: crumb k (k >= 1) is
      labelled after segment k and links to "/" followed by the first k
      segments joined with "/". */
  function TrailOf(segments: seq<string>): (r: seq<Crumb>)
    ensures |r| == |segments| + 1 && r[0] == Home
  {
    [Home] + seq(|segments|, k requires 0 <= k < |segments| =>
      Crumb(Label(segments[k]), "/" + Join(segments[..k + 1], '/')))
  }

  function Trail(pathname: string): seq<Crumb> {
    TrailOf(Segments(pathname))
  }

  /** `generateBreadcrumbs()`: walk the segments, extending `currentPath`
      by "/" and the segment and pushing one crumb per segment. */
  method GenerateBreadcrumbs(pathname: string) returns (breadcrumbs: seq<Crumb>)
    ensures breadcrumbs == Trail(pathname)
    ensures |breadcrumbs| == 1 + |Segments(pathname)| && breadcrumbs[0] == Home
  {
    var pathSegments := Segments(pathname);
    breadcrumbs := [Home];
    var currentPath := "";
    var i := 0;
    while i < |pathSegments|
      invariant 0 <= i <= |pathSegments|
      invariant CurrentPath(pathSegments[..i]) == currentPath
      invariant breadcrumbs == TrailOf(pathSegments[..i])
    {
      TrailStep(pathSegments, i);
      currentPath := currentPath + "/" + pathSegments[i];
      breadcrumbs := breadcrumbs + [Crumb(Label(pathSegments[i]), currentPath)];
      i := i + 1;
    }
    assert pathSegments[..i] == pathSegments;
  }

  /** The value `currentPath` holds once the given segments are walked. */
  function CurrentPath(walked: seq<string>): string {
    if walked == [] then "" else "/" + Join(walked, '/')
  }

  /** One turn of the loop: walking one more segment extends the path by "/"
      and the segment, and the trail by the crumb for that path. */
  lemma TrailStep(segments: seq<string>, i: nat)
    requires i < |segments|
    ensures CurrentPath(segments[..i + 1]) == CurrentPath(segments[..i]) + "/" + segments[i]
    ensures TrailOf(segments[..i + 1]) ==
      TrailOf(segments[..i]) + [Crumb(Label(segments[i]), CurrentPath(segments[..i]) + "/" + segments[i])]
  {
    var u, w := segments[..i], segments[i];
    assert segments[..i + 1] == u + [w];
    if i > 0 {
      JoinSnoc(u, w, '/');
    }
    TrailOfSnoc(u, w);
  }

  /** Adding a segment adds one crumb, labelled after it and linking to the
      full path. */
  lemma TrailOfSnoc(u: seq<string>, w: string)
    ensures TrailOf(u + [w]) == TrailOf(u) + [Crumb(Label(w), "/" + Join(u + [w], '/'))]
  {
    var s := u + [w];
    var a, b := TrailOf(s), TrailOf(u) + [Crumb(Label(w), "/" + Join(s, '/'))];
    assert |a| == |b|;
    forall k | 0 <= k < |a| ensures a[k] == b[k] {
      if 1 <= k <= |u| {
        assert s[..k] == u[..k];
      } else if k == |s| {
        assert s[..k] == s;
      }
    }
  }

  // ---------------------------------------------------------------------------
  // What the trail promises

  /** Splitting at a slash splits the path's two sides independently. */
  lemma SegmentsAppend(a: string, b: string)
    ensures Segments(a + "/" + b) == Segments(a) + Segments(b)
  {
    SplitAppend(a, b, '/');
    FilterAppend(Split(a, '/'), Split(b, '/'), segment => segment != []);
  }

  /** The empty path and the root path have no segments. */
  lemma EmptyAndRootHaveNoSegments()
    ensures Segments("") == [] && Segments("/") == []
  {
    assert Segments("") == [];
    SegmentsAppend("", "");
    assert "" + "/" + "" == "/";
  }

  /** A doubled slash adds no segment. */
  lemma DoubledSlash(a: string, b: string)
    ensures Segments(a + "//" + b) == Segments(a + "/" + b)
  {
    LeadingSlash(b);
    SegmentsAppend(a, "/" + b);
    assert a + "/" + ("/" + b) == a + "//" + b;
    SegmentsAppend(a, b);
  }

  /** A leading slash adds no segment. */
  lemma LeadingSlash(a: string)
    ensures Segments("/" + a) == Segments(a)
  {
    assert Segments("") == [];
    SegmentsAppend("", a);
    assert "" + "/" + a == "/" + a;
  }

  /** A trailing slash adds no segment. */
  lemma TrailingSlash(a: string)
    ensures Segments(a + "/") == Segments(a)
  {
    assert Segments("") == [];
    SegmentsAppend(a, "");
    assert a + "/" + "" == a + "/";
  }

  /** "/" and "" give only the Home crumb. */
  lemma RootTrailIsHome()
    ensures Trail("/") == [Home] && Trail("") == [Home]
  {
    EmptyAndRootHaveNoSegments();
  }

  /** A single segment is its own only segment. */
  lemma SegmentsOfSegment(w: string)
    requires w != [] && '/' !in w
    ensures Segments(w) == [w] && Segments("/" + w) == [w]
  {
    SplitNoSeparator(w, '/');
    LeadingSlash(w);
  }

  /** Following crumb k's link leads to the path made of the first k
      segments: its own segments are exactly those. */
  lemma {:induction false} HrefSegments(segments: seq<string>)
    requires segments != []
    requires forall i :: 0 <= i < |segments| ==> segments[i] != [] && '/' !in segments[i]
    ensures Segments("/" + Join(segments, '/')) == segments
  {
    var w := segments[|segments| - 1];
    SegmentsOfSegment(w);
    if |segments| > 1 {
      var u := segments[..|segments| - 1];
      HrefSegments(u);
      assert Join(segments, '/') == Join(u, '/') + "/" + w by {
        assert segments == u + [w];
        JoinSnoc(u, w, '/');
      }
      assert "/" + Join(segments, '/') == ("/" + Join(u, '/')) + "/" + w;
      SegmentsAppend("/" + Join(u, '/'), w);
    }
  }

  /** Each link extends the previous one by "/" and one more segment, so
      each is a prefix of the next. */
  lemma TrailLinksExtend(segments: seq<string>)
    ensures forall k :: 1 <= k < |TrailOf(segments)| - 1 ==>
      TrailOf(segments)[k + 1].href == TrailOf(segments)[k].href + "/" + segments[k]
      && TrailOf(segments)[k].href <= TrailOf(segments)[k + 1].href
  {
    var t := TrailOf(segments);
    forall k | 1 <= k < |t| - 1
      ensures t[k + 1].href == t[k].href + "/" + segments[k] && t[k].href <= t[k + 1].href
    {
      assert segments[..k + 1] == segments[..k] + [segments[k]];
      JoinSnoc(segments[..k], segments[k], '/');
    }
  }

  /** The trail has one crumb more than the path has non-empty segments, it
      starts at Home, and each link leads back to the segments it was built
      from. */
  lemma TrailProperties(pathname: string)
    ensures |Trail(pathname)| == 1 + |Segments(pathname)|
    ensures Trail(pathname)[0] == Home
    ensures forall k :: 1 <= k < |Trail(pathname)| ==>
      Segments(Trail(pathname)[k].href) == Segments(pathname)[..k]
  {
    var segments := Segments(pathname);
    forall k | 1 <= k <= |segments| ensures Segments(TrailOf(segments)[k].href) == segments[..k] {
      CrumbHref(segments, k);
    }
  }

  /** Crumb k's link holds exactly the first k segments. */
  lemma CrumbHref(segments: seq<string>, k: nat)
    requires 1 <= k <= |segments|
    requires forall i :: 0 <= i < |segments| ==> segments[i] != [] && '/' !in segments[i]
    ensures Segments(TrailOf(segments)[k].href) == segments[..k]
  {
    var u := segments[..k];
    assert TrailOf(segments)[k].href == "/" + Join(u, '/');
    assert forall i :: 0 <= i < |u| ==> u[i] == segments[i];
    HrefSegments(u);
  }

  /** A label has one word per hyphen plus one, each the matching piece of
      the segment capitalised (for segments without spaces, which would
      otherwise blur the word boundaries). */
  lemma LabelWords(segment: string)
    requires ' ' !in segment
    ensures Split(Label(segment), ' ') == CapitalizeAll(Split(segment, '-'))
    ensures |Split(Label(segment), ' ')| == multiset(segment)['-'] + 1
  {
    var words := CapitalizeAll(Split(segment, '-'));
    forall i | 0 <= i < |words| ensures ' ' !in words[i] {
      var w := Split(segment, '-')[i];
      assert forall c :: c in w ==> c in segment by {
        JoinSplit(segment, '-');
        JoinContains(Split(segment, '-'), i, '-');
      }
    }
    SplitJoin(words, ' ');
    SplitCount(segment, '-');
  }

  /** Every character of a joined word occurs in the joined string. */
  lemma {:induction false} JoinContains(words: seq<string>, i: nat, sep: char)
    requires i < |words|
    ensures forall c :: c in words[i] ==> c in Join(words, sep)
  {
    if |words| > 1 && i > 0 {
      JoinContains(words[1..], i - 1, sep);
    }
  }

  // ---------------------------------------------------------------------------
  // Rendering marks

  /** A rendered crumb: whether it is marked as the current page and whether
      a chevron precedes it. */
  datatype RenderedCrumb = RenderedCrumb(crumb: Crumb, current: bool, chevron: bool)

  function Render(breadcrumbs: seq<Crumb>): (r: seq<RenderedCrumb>)
    ensures |r| == |breadcrumbs|
    ensures forall i :: 0 <= i < |r| ==> r[i].crumb == breadcrumbs[i]
  {
    seq(|breadcrumbs|, i requires 0 <= i < |breadcrumbs| =>
      RenderedCrumb(breadcrumbs[i], i == |breadcrumbs| - 1, i > 0))
  }

  /** Exactly one crumb, the last, is the current page, and every crumb but
      the first has a chevron before it. */
  lemma RenderMarksLastOnly(breadcrumbs: seq<Crumb>)
    requires breadcrumbs != []
    ensures Render(breadcrumbs)[|breadcrumbs| - 1].current
    ensures forall i, j :: 0 <= i < j < |breadcrumbs| ==> !(Render(breadcrumbs)[i].current && Render(breadcrumbs)[j].current)
    ensures forall i :: 0 <= i < |breadcrumbs| ==> (Render(breadcrumbs)[i].chevron <==> i > 0)
  {
  }
}
