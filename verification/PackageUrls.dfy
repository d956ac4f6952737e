/** Import urls: the canonical name a package gives to what an importer asks for. */
module PackageUrls {

  predicate StartsWith(s: string, p: string) {
    p <= s
  }

  predicate EndsWith(s: string, p: string) {
    |p| <= |s| && s[|s| - |p|..] == p
  }

  predicate IsRelative(url: string) {
    StartsWith(url, "./") || StartsWith(url, "../")
  }

  /** A module that ships as source under the package root. */
  predicate IsPkgSource(url: string) {
    !IsRelative(url) && EndsWith(url, ".fnk")
  }

  /** The pieces between the slashes; one more than there are slashes. */
  function Split(s: string): (r: seq<string>)
    ensures r != []
  {
    if s == "" then [""]
    else if s[0] == '/' then [""] + Split(s[1..])
    else
      var rest := Split(s[1..]);
      [[s[0]] + rest[0]] + rest[1..]
  }

  function Join(segs: seq<string>): string {
    if segs == [] then ""
    else if |segs| == 1 then segs[0]
    else segs[0] + "/" + Join(segs[1..])
  }

  /** Where a url leads: so many levels up, then down through the named directories. */
  datatype Place = Place(ups: nat, downs: seq<string>)

  const HERE := Place(0, [])

  function Step(p: Place, seg: string): Place {
    if seg == "" || seg == "." then p
    else if seg == ".." then
      if p.downs == [] then p.(ups := p.ups + 1) else p.(downs := p.downs[..|p.downs| - 1])
    else p.(downs := p.downs + [seg])
  }

  function WalkFrom(p: Place, segs: seq<string>): Place
    decreases segs
  {
    if segs == [] then p else WalkFrom(Step(p, segs[0]), segs[1..])
  }

  function PlaceOf(url: string): Place {
    WalkFrom(HERE, Split(url))
  }

  function Repeat(n: nat, s: string): string {
    if n == 0 then "" else s + Repeat(n - 1, s)
  }

  function Show(p: Place): string {
    (if p.ups == 0 then "./" else Repeat(p.ups, "../")) + Join(p.downs)
  }

  function Normalise(url: string): string {
    Show(PlaceOf(url))
  }

  /** Up to and with the last slash; `./` when there is none. */
  function DirOf(url: string): string {
    if '/' in url then UpToSlash(url) else "./"
  }

  function UpToSlash(url: string): (r: string)
    requires '/' in url
  {
    if url[|url| - 1] == '/' then url else UpToSlash(url[..|url| - 1])
  }

  function WithoutDot(raw: string): string {
    if StartsWith(raw, "./") then raw[2..] else raw
  }

  function Canonicalise(importer: string, raw: string): string {
    if !IsRelative(raw) then raw else Normalise(DirOf(importer) + WithoutDot(raw))
  }

  // ---- The stack loop -------------------------------------------------------------------------------

  /** Drops empty and `.` segments, lets `..` undo a segment or count as a leading parent. */
  method NormaliseSegments(url: string) returns (out: string)
    ensures out == Normalise(url)
  {
    var segs := Split(url);
    var stack: seq<string>, leadingParents: nat := [], 0;
    var k := 0;
    while k < |segs|
      invariant 0 <= k <= |segs|
      invariant WalkFrom(Place(leadingParents, stack), segs[k..]) == PlaceOf(url)
    {
      assert segs[k..][0] == segs[k] && segs[k..][1..] == segs[k + 1..];
      var seg := segs[k];
      k := k + 1;
      if seg == "" || seg == "." {
        continue;
      }
      if seg == ".." {
        if stack == [] {
          leadingParents := leadingParents + 1;
        } else {
          stack := stack[..|stack| - 1];
        }
      } else {
        stack := stack + [seg];
      }
    }
    out := "";
    if leadingParents == 0 {
      out := "./";
    } else {
      var i := 0;
      while i < leadingParents
        invariant 0 <= i <= leadingParents
        invariant out + Repeat(leadingParents - i, "../") == Repeat(leadingParents, "../")
      {
        assert out + Repeat(leadingParents - i, "../") == out + "../" + Repeat(leadingParents - i - 1, "../");
        out := out + "../";
        i := i + 1;
      }
    }
    out := out + Join(stack);
  }

  // ---- Splitting and joining ------------------------------------------------------------------------

  lemma {:induction false} SplitAtSlash(a: string, b: string)
    ensures Split(a + "/" + b) == Split(a) + Split(b)
    decreases a
  {
    var s := a + "/" + b;
    if a == "" {
      assert s[1..] == b;
    } else {
      assert s[0] == a[0] && s[1..] == a[1..] + "/" + b;
      SplitAtSlash(a[1..], b);
      if a[0] != '/' {
        var rest := Split(a[1..]);
        assert (rest + Split(b))[0] == rest[0] && (rest + Split(b))[1..] == rest[1..] + Split(b);
      }
    }
  }

  lemma {:induction false} SplitPlain(s: string)
    requires '/' !in s
    ensures Split(s) == [s]
  {
    if s != "" {
      SplitPlain(s[1..]);
      assert [s[0]] + s[1..] == s;
    }
  }

  /** A directory name: what a walk can go down into. */
  predicate Name(seg: string) {
    seg != "" && seg != "." && seg != ".." && '/' !in seg
  }

  predicate Names(segs: seq<string>) {
    forall seg :: seg in segs ==> Name(seg)
  }

  lemma {:induction false} SplitJoin(segs: seq<string>)
    requires segs != [] && Names(segs)
    ensures Split(Join(segs)) == segs
  {
    assert Name(segs[0]);
    SplitPlain(segs[0]);
    if |segs| > 1 {
      SplitJoin(segs[1..]);
      SplitAtSlash(segs[0], Join(segs[1..]));
      assert segs == [segs[0]] + segs[1..];
    } else {
      assert segs == [segs[0]];
    }
  }

  lemma {:induction false} SplitHasNoSlash(s: string)
    ensures forall seg :: seg in Split(s) ==> '/' !in seg
  {
    if s != "" {
      SplitHasNoSlash(s[1..]);
      var rest := Split(s[1..]);
      assert rest[0] in rest && forall seg :: seg in rest[1..] ==> seg in rest;
    }
  }

  // ---- Walking --------------------------------------------------------------------------------------

  lemma {:induction false} WalkConcat(p: Place, a: seq<string>, b: seq<string>)
    ensures WalkFrom(p, a + b) == WalkFrom(WalkFrom(p, a), b)
    decreases a
  {
    if a == [] {
      assert a + b == b;
    } else {
      assert (a + b)[0] == a[0] && (a + b)[1..] == a[1..] + b;
      WalkConcat(Step(p, a[0]), a[1..], b);
    }
  }

  lemma {:induction false} WalkKeepsNames(p: Place, segs: seq<string>)
    requires Names(p.downs) && forall seg :: seg in segs ==> '/' !in seg
    ensures Names(WalkFrom(p, segs).downs)
    decreases segs
  {
    if segs != [] {
      assert segs[0] in segs;
      WalkKeepsNames(Step(p, segs[0]), segs[1..]);
    }
  }

  lemma {:induction false} WalkNames(p: Place, segs: seq<string>)
    requires Names(segs)
    ensures WalkFrom(p, segs) == p.(downs := p.downs + segs)
    decreases segs
  {
    if segs != [] {
      assert Name(segs[0]);
      WalkNames(Step(p, segs[0]), segs[1..]);
      assert p.downs + [segs[0]] + segs[1..] == p.downs + segs;
    } else {
      assert p.downs + segs == p.downs;
    }
  }

  /** One more segment: a name leads down, an empty segment or a dot nowhere, and `..` back over the last name or, at
      the top, one level further up. So going down and then up again leads back to where it started. */
  lemma OneMoreSegment(url: string, name: string)
    requires Name(name)
    ensures var p := PlaceOf(url);
            && PlaceOf(url + "/" + name) == Place(p.ups, p.downs + [name])
            && PlaceOf(url + "/" + name + "/" + "..") == p
            && PlaceOf(url + "/" + "") == p && PlaceOf(url + "/" + ".") == p
            && (p.downs == [] ==> PlaceOf(url + "/" + "..") == Place(p.ups + 1, []))
    ensures PlaceOf("") == PlaceOf(".") == HERE
  {
    var p, down := PlaceOf(url), url + "/" + name;
    Onwards(url, name);
    Onwards(down, "..");
    Onwards(url, "");
    Onwards(url, ".");
    Onwards(url, "..");
    assert (p.downs + [name])[..|p.downs|] == p.downs;
    SplitPlain(".");
    assert WalkFrom(HERE, ["."][1..]) == HERE == WalkFrom(HERE, [""][1..]);
  }

  lemma Onwards(url: string, seg: string)
    requires '/' !in seg
    ensures PlaceOf(url + "/" + seg) == Step(PlaceOf(url), seg)
  {
    SplitAtSlash(url, seg);
    SplitPlain(seg);
    WalkConcat(HERE, Split(url), [seg]);
    assert [seg][1..] == [];
    assert WalkFrom(PlaceOf(url), [seg]) == WalkFrom(Step(PlaceOf(url), seg), []);
  }

  lemma {:induction false} WalkUps(u: nat, n: nat, s: string)
    ensures WalkFrom(Place(u, []), Split(Repeat(n, "../") + s)) == WalkFrom(Place(u + n, []), Split(s))
    decreases n
  {
    if n == 0 {
      assert Repeat(n, "../") + s == s;
    } else {
      var rest := Repeat(n - 1, "../") + s;
      assert Repeat(n, "../") + s == ".." + "/" + rest;
      SplitAtSlash("..", rest);
      SplitPlain("..");
      assert ([".."] + Split(rest))[1..] == Split(rest);
      WalkUps(u + 1, n - 1, s);
    }
  }

  /** Reading back what was shown leads to the same place. */
  lemma ShowRoundTrip(p: Place)
    requires Names(p.downs)
    ensures PlaceOf(Show(p)) == p
  {
    var tail := Join(p.downs);
    if p.ups == 0 {
      assert Show(p) == "." + "/" + tail;
      SplitAtSlash(".", tail);
      SplitPlain(".");
      assert (["."] + Split(tail))[1..] == Split(tail);
    } else {
      WalkUps(0, p.ups, tail);
    }
    assert PlaceOf(Show(p)) == WalkFrom(Place(p.ups, []), Split(tail));
    if p.downs != [] {
      SplitJoin(p.downs);
      WalkNames(Place(p.ups, []), p.downs);
    } else {
      assert Split(tail)[1..] == [];
    }
  }

  lemma PlaceHasNames(url: string)
    ensures Names(PlaceOf(url).downs)
  {
    SplitHasNoSlash(url);
    WalkKeepsNames(HERE, Split(url));
  }

  /** Normalising again changes nothing, and two urls normalise alike exactly when they lead to the same
      place. */
  lemma NormaliseIsCanonical(a: string, b: string)
    ensures Normalise(Normalise(a)) == Normalise(a)
    ensures Normalise(a) == Normalise(b) <==> PlaceOf(a) == PlaceOf(b)
  {
    PlaceHasNames(a);
    PlaceHasNames(b);
    ShowRoundTrip(PlaceOf(a));
    ShowRoundTrip(PlaceOf(b));
  }

  // ---- Canonical urls -------------------------------------------------------------------------------

  lemma {:induction false} UpToSlashSplits(url: string)
    requires '/' in url
    ensures exists d :: UpToSlash(url) == d + "/" && Split(d) == Split(url)[..|Split(url)| - 1]
    decreases url
  {
    var n := |url| - 1;
    if url[n] == '/' {
      assert url == url[..n] + "/" + "";
      SplitAtSlash(url[..n], "");
      assert Split(url)[..|Split(url)| - 1] == Split(url[..n]);
    } else {
      UpToSlashSplits(url[..n]);
      DropLastChar(url);
    }
  }

  /** A last character other than a slash belongs to the last segment. */
  lemma {:induction false} DropLastChar(url: string)
    requires url != "" && url[|url| - 1] != '/'
    ensures Split(url)[..|Split(url)| - 1] == Split(url[..|url| - 1])[..|Split(url[..|url| - 1])| - 1]
  {
    var n := |url| - 1;
    if n > 0 {
      DropLastChar(url[1..]);
      assert url[..n][1..] == url[1..][..n - 1];
      var a, b := Split(url[1..]), Split(url[..n][1..]);
      assert |a| == |b|;
      if url[0] == '/' {
        assert ([""] + a)[..|a|] == [""] + a[..|a| - 1] && ([""] + b)[..|b|] == [""] + b[..|b| - 1];
      } else if |a| > 1 {
        assert a[0] == a[..|a| - 1][0] && b[0] == b[..|b| - 1][0];
        assert ([[url[0]] + a[0]] + a[1..])[..|a| - 1] == [[url[0]] + a[0]] + a[..|a| - 1][1..];
        assert ([[url[0]] + b[0]] + b[1..])[..|b| - 1] == [[url[0]] + b[0]] + b[..|b| - 1][1..];
      }
    } else {
      assert url[1..] == "";
    }
  }

  /** Where a relative import leads: the importer's segments without its last, its file, then the import's. */
  function Destination(importer: string, raw: string): Place {
    var segs := Split(importer);
    WalkFrom(HERE, segs[..|segs| - 1] + Split(raw))
  }

  /** A relative import leads where the importer's directory and then the import's own segments lead; the
      importer's last segment, its file, does not matter. */
  lemma CanonicaliseWalks(importer: string, raw: string)
    requires IsRelative(raw)
    ensures Canonicalise(importer, raw) == Show(Destination(importer, raw))
  {
    var segs, rest := Split(importer), WithoutDot(raw);
    var dir :| DirOf(importer) == dir + "/" && WalkFrom(HERE, Split(dir)) == WalkFrom(HERE, segs[..|segs| - 1]) by {
      if '/' in importer {
        UpToSlashSplits(importer);
      } else {
        SplitPlain(importer);
        SplitPlain(".");
        assert DirOf(importer) == "." + "/" && segs[..0] == [];
      }
    }
    assert DirOf(importer) + rest == dir + "/" + rest;
    SplitAtSlash(dir, rest);
    WalkConcat(HERE, Split(dir), Split(rest));
    WalkConcat(HERE, segs[..|segs| - 1], Split(raw));
    DotGoesNowhere(WalkFrom(HERE, Split(dir)), raw);
  }

  /** Two relative imports get one canonical url exactly when they lead to the same place. */
  lemma OneUrlPerPlace(importer: string, raw: string, importer': string, raw': string)
    requires IsRelative(raw) && IsRelative(raw')
    ensures Canonicalise(importer, raw) == Canonicalise(importer', raw')
            <==> Destination(importer, raw) == Destination(importer', raw')
  {
    CanonicaliseWalks(importer, raw);
    CanonicaliseWalks(importer', raw');
    DestinationHasNames(importer, raw);
    DestinationHasNames(importer', raw');
    ShowRoundTrip(Destination(importer, raw));
    ShowRoundTrip(Destination(importer', raw'));
  }

  lemma DestinationHasNames(importer: string, raw: string)
    ensures Names(Destination(importer, raw).downs)
  {
    var segs := Split(importer);
    SplitHasNoSlash(importer);
    SplitHasNoSlash(raw);
    assert forall seg :: seg in segs[..|segs| - 1] ==> seg in segs;
    WalkKeepsNames(HERE, segs[..|segs| - 1] + Split(raw));
  }

  lemma DotGoesNowhere(p: Place, raw: string)
    ensures WalkFrom(p, Split(WithoutDot(raw))) == WalkFrom(p, Split(raw))
  {
    if StartsWith(raw, "./") {
      assert raw == "." + "/" + raw[2..];
      SplitAtSlash(".", raw[2..]);
      SplitPlain(".");
      assert (["."] + Split(raw[2..]))[1..] == Split(raw[2..]);
    }
  }

  /** What a relative import becomes is relative and normal, even inside a package source; anything else
      is left as it is. So a relative import never names a package source, and canonicalising from
      wherever is done once and for all. */
  lemma CanonicalIsStable(importer: string, raw: string)
    ensures var c := Canonicalise(importer, raw);
            && (IsRelative(raw) <==> IsRelative(c)) && (IsRelative(raw) ==> Normalise(c) == c && !IsPkgSource(c))
            && (!IsRelative(raw) ==> c == raw)
  {
    if IsRelative(raw) {
      NormaliseIsCanonical(DirOf(importer) + WithoutDot(raw), "");
    }
  }
}
