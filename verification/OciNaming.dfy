/** File names and Proxmox tags made from OCI image references (pkg/proxmox/container_oci.go). */
module OciNaming {
  import opened Text

  predicate Dash(c: char) { c == '-' || c == '.' }

  predicate Kept(c: char) {
    'a' <= c <= 'z' || 'A' <= c <= 'Z' || '0' <= c <= '9'
  }

  /** Everything but ASCII letters and digits becomes a dash. */
  function Dashed(s: string): (r: string)
    ensures |r| == |s|
    ensures forall i :: 0 <= i < |s| ==> r[i] == if Kept(s[i]) then s[i] else '-'
  {
    if s == [] then [] else [if Kept(s[0]) then s[0] else '-'] + Dashed(s[1..])
  }

  predicate HasRun(s: string) {
    exists i :: 0 <= i < |s| - 1 && s[i] == '-' && s[i + 1] == '-'
  }

  /** One left-to-right pass replacing each two dashes by one. */
  function ReplaceAll(s: string): (r: string)
    ensures |r| <= |s|
  {
    if |s| < 2 then s
    else if s[0] == '-' && s[1] == '-' then "-" + ReplaceAll(s[2..])
    else [s[0]] + ReplaceAll(s[1..])
  }

  /** Every run of dashes shrunk to one dash. */
  function Collapse(s: string): (r: string)
    ensures |r| <= |s|
    ensures s != [] ==> r != [] && r[0] == s[0]
  {
    if |s| < 2 then s
    else if s[0] == '-' && s[1] == '-' then Collapse(s[1..])
    else [s[0]] + Collapse(s[1..])
  }

  lemma {:induction false} ReplaceShrinks(s: string)
    requires HasRun(s)
    ensures |ReplaceAll(s)| < |s|
  {
    var i :| 0 <= i < |s| - 1 && s[i] == '-' && s[i + 1] == '-';
    if !(s[0] == '-' && s[1] == '-') {
      assert s[1..][i - 1] == '-' && s[1..][i] == '-';
      ReplaceShrinks(s[1..]);
    }
  }

  lemma {:induction false} CollapseDash(s: string)
    ensures Collapse("-" + s) == if s != [] && s[0] == '-' then Collapse(s) else "-" + Collapse(s)
  {
    assert ("-" + s)[1..] == s;
  }

  /** A replacement pass does not change what a string collapses to. */
  lemma {:induction false} CollapseAfterReplace(s: string)
    ensures Collapse(ReplaceAll(s)) == Collapse(s)
    ensures s != [] ==> ReplaceAll(s) != [] && ReplaceAll(s)[0] == s[0]
  {
    if |s| >= 2 {
      if s[0] == '-' && s[1] == '-' {
        CollapseAfterReplace(s[2..]);
        CollapseDash(ReplaceAll(s[2..]));
        CollapseDash(s[2..]);
        assert s[1..] == "-" + s[2..];
      } else {
        CollapseAfterReplace(s[1..]);
        var r := ReplaceAll(s);
        assert r[1..] == ReplaceAll(s[1..]);
      }
    }
  }

  lemma {:induction false} CollapseFixed(s: string)
    requires !HasRun(s)
    ensures Collapse(s) == s
  {
    if |s| >= 2 {
      assert !(s[0] == '-' && s[1] == '-');
      forall i | 0 <= i < |s[1..]| - 1 ensures !(s[1..][i] == '-' && s[1..][i + 1] == '-') {
        assert s[1..][i] == s[i + 1] && s[1..][i + 1] == s[i + 2];
      }
      CollapseFixed(s[1..]);
    }
  }

  lemma {:induction false} CollapseHasNoRun(s: string)
    ensures !HasRun(Collapse(s))
    ensures forall c :: c in Collapse(s) ==> c in s
  {
    if |s| >= 2 {
      CollapseHasNoRun(s[1..]);
      if !(s[0] == '-' && s[1] == '-') {
        var r, t := Collapse(s), Collapse(s[1..]);
        forall i | 0 <= i < |r| - 1 ensures !(r[i] == '-' && r[i + 1] == '-') {
          if i > 0 {
            assert r[i] == t[i - 1] && r[i + 1] == t[i];
          }
        }
      }
    }
  }

  function Lower(c: char): char {
    if 'A' <= c <= 'Z' then (c as int + 32) as char else c
  }

  function ToLower(s: string): (r: string)
    ensures |r| == |s| && forall i :: 0 <= i < |s| ==> r[i] == Lower(s[i])
  {
    if s == [] then [] else [Lower(s[0])] + ToLower(s[1..])
  }

  const MAX_FILE_BASE: nat := 200
  const MAX_TAG: nat := 120

  function CutTo(s: string, n: nat): string {
    if |s| > n then TrimRight(s[..n], Dash) else s
  }

  function FileBase(ref: string): string {
    var s := TrimSpace(ref);
    if s == "" then ""
    else ToLower(CutTo(Trim(Collapse(Dashed(s)), Dash), MAX_FILE_BASE))
  }

  /** ociReferenceToFileBase: the loop of replacements reaches the collapsed string. */
  method OciReferenceToFileBase(ref: string) returns (base: string)
    ensures base == FileBase(ref)
  {
    var trimmed := TrimSpace(ref);
    if trimmed == "" {
      return "";
    }
    var s: string := [];
    for i := 0 to |trimmed|
      invariant |s| == i && forall k :: 0 <= k < i ==> s[k] == if Kept(trimmed[k]) then trimmed[k] else '-'
    {
      s := s + [if Kept(trimmed[i]) then trimmed[i] else '-'];
    }
    assert s == Dashed(trimmed);
    while HasRun(s)
      invariant Collapse(s) == Collapse(Dashed(trimmed))
      decreases |s|
    {
      ReplaceShrinks(s);
      CollapseAfterReplace(s);
      s := ReplaceAll(s);
    }
    CollapseFixed(s);
    s := Trim(s, Dash);
    if |s| > MAX_FILE_BASE {
      s := TrimRight(s[..MAX_FILE_BASE], Dash);
    }
    base := ToLower(s);
  }

  // ---------------------------------------------------------------- the results

  predicate Plain(c: char) {
    'a' <= c <= 'z' || '0' <= c <= '9' || c == '-'
  }

  /** Lower-case letters, digits and single inner dashes. */
  ghost predicate Canonical(s: string, max: nat) {
    && |s| <= max && !HasRun(s)
    && (forall c :: c in s ==> Plain(c))
    && (s != [] ==> s[0] != '-' && s[|s| - 1] != '-')
  }

  lemma LowerKeepsShape(s: string)
    ensures !HasRun(s) ==> !HasRun(ToLower(s))
    ensures (forall c :: c in s ==> Kept(c) || c == '-') ==> forall c :: c in ToLower(s) ==> Plain(c)
  {
    var r := ToLower(s);
    if !HasRun(s) {
      forall i | 0 <= i < |r| - 1 ensures !(r[i] == '-' && r[i + 1] == '-') {
        assert r[i] == Lower(s[i]) && r[i + 1] == Lower(s[i + 1]);
      }
    }
    if forall c :: c in s ==> Kept(c) || c == '-' {
      forall c | c in r ensures Plain(c) {
        var i :| 0 <= i < |r| && r[i] == c;
        assert s[i] in s;
      }
    }
  }

  lemma PartHasNoRun(s: string, lo: nat, hi: nat)
    requires lo <= hi <= |s| && !HasRun(s)
    ensures !HasRun(s[lo..hi])
  {
    var t := s[lo..hi];
    forall i | 0 <= i < |t| - 1 ensures !(t[i] == '-' && t[i + 1] == '-') {
      assert t[i] == s[lo + i] && t[i + 1] == s[lo + i + 1];
    }
  }

  ghost predicate Dashes(s: string) {
    !HasRun(s) && forall c :: c in s ==> Kept(c) || c == '-'
  }

  lemma TrimLeftShape(s: string)
    requires Dashes(s)
    ensures Dashes(TrimLeft(s, Dash))
  {
    var left := TrimLeft(s, Dash);
    TrimLeftIsEnd(s, Dash);
    PartHasNoRun(s, |s| - |left|, |s|);
    assert s[|s| - |left|..|s|] == left;
  }

  lemma TrimRightShape(s: string)
    requires Dashes(s)
    ensures Dashes(TrimRight(s, Dash))
    ensures TrimRight(s, Dash) != [] ==> TrimRight(s, Dash)[0] == s[0]
  {
    var t := TrimRight(s, Dash);
    PartHasNoRun(s, 0, |t|);
    assert s[0..|t|] == t;
  }

  /** Trimming and cutting a collapsed string leaves a dash-edged one nowhere. */
  lemma TrimmedShape(s: string, max: nat)
    requires Dashes(s)
    ensures var r := CutTo(Trim(s, Dash), max);
      && |r| <= max && Dashes(r) && (r != [] ==> r[0] != '-' && r[|r| - 1] != '-')
  {
    TrimLeftShape(s);
    TrimRightShape(TrimLeft(s, Dash));
    var t := Trim(s, Dash);
    if |t| > max {
      PartHasNoRun(t, 0, max);
      assert t[0..max] == t[..max];
      TrimRightShape(t[..max]);
    }
  }

  lemma FileBaseIsCanonical(ref: string)
    ensures Canonical(FileBase(ref), MAX_FILE_BASE)
  {
    var s := TrimSpace(ref);
    if s != "" {
      var c := Collapse(Dashed(s));
      CollapseHasNoRun(Dashed(s));
      TrimmedShape(c, MAX_FILE_BASE);
      var r := CutTo(Trim(c, Dash), MAX_FILE_BASE);
      LowerKeepsShape(r);
      if r != [] {
        assert r[0] in r && r[|r| - 1] in r;
      }
    }
  }

  lemma PlainStays(s: string)
    requires forall c :: c in s ==> Plain(c)
    ensures Dashed(s) == s && ToLower(s) == s
  {
    forall i | 0 <= i < |s| ensures Dashed(s)[i] == s[i] && ToLower(s)[i] == s[i] {
      assert s[i] in s;
    }
  }

  lemma PlainEdges(s: string)
    requires s != "" && (forall c :: c in s ==> Plain(c)) && s[0] != '-' && s[|s| - 1] != '-'
    ensures Trim(s, IsSpace) == s && Trim(s, Dash) == s
  {
    assert s[0] in s && s[|s| - 1] in s;
    TrimNothing(s, IsSpace);
    TrimNothing(s, Dash);
  }

  lemma CanonicalIsFixed(s: string)
    requires Canonical(s, MAX_FILE_BASE)
    ensures FileBase(s) == s
  {
    if s != "" {
      PlainStays(s);
      PlainEdges(s);
      CollapseFixed(s);
    }
  }

  lemma FileBaseIdempotent(ref: string)
    ensures FileBase(FileBase(ref)) == FileBase(ref)
  {
    FileBaseIsCanonical(ref);
    CanonicalIsFixed(FileBase(ref));
  }

  // ----------------------------------------------------------------------- tags

  predicate Hex16(s: string) {
    |s| == 16 && forall c :: c in s ==> '0' <= c <= '9' || 'a' <= c <= 'f'
  }

  /** The first eight bytes of SHA-256 in hex, abstract but for its shape. */
  type Digest = f: string -> string | forall s :: Hex16(f(s)) witness ZeroDigest()

  function ZeroDigest(): string -> string {
    (s: string) => "0000000000000000"
  }

  function OCIImageProxmoxTag(id: Digest, imageRef: string): string {
    var ref := TrimSpace(imageRef);
    if ref == "" then ""
    else
      CutTo("img-" + TagBody(id, ref), MAX_TAG)
  }

  function TagBody(id: Digest, ref: string): string {
    var base := FileBase(ref);
    if base == "" then "x-" + id(ref) else base
  }

  predicate LXCHasOCIImageTag(id: Digest, tagsField: string, imageRef: string) {
    HasField(tagsField, OCIImageProxmoxTag(id, imageRef))
  }

  predicate HasField(tagsField: string, want: string) {
    want != "" && exists t :: t in Split(tagsField, ';') && TrimSpace(t) == want
  }

  ghost predicate PlainWord(s: string) {
    s != [] && (forall c :: c in s ==> Plain(c)) && s[0] != '-' && s[|s| - 1] != '-'
  }

  lemma HexBodyShape(h: string)
    requires Hex16(h)
    ensures PlainWord("x-" + h)
  {
    var body := "x-" + h;
    assert body[0] == 'x' && body[|body| - 1] == h[15] && h[15] in h;
  }

  lemma TagBodyShape(id: Digest, ref: string)
    ensures PlainWord(TagBody(id, ref))
  {
    FileBaseIsCanonical(ref);
    if FileBase(ref) == "" {
      HexBodyShape(id(ref));
    }
  }

  /** A Proxmox tag: charset-safe, at most 120 characters, recognisable. Only a blank
      reference has none. */
  lemma TagShape(id: Digest, imageRef: string)
    ensures var tag := OCIImageProxmoxTag(id, imageRef);
      if Blank(imageRef) then tag == "" else 4 < |tag| <= MAX_TAG && tag[..4] == "img-" && PlainWord(tag)
  {
    if !Blank(imageRef) {
      var body := TagBody(id, TrimSpace(imageRef));
      TagBodyShape(id, TrimSpace(imageRef));
      PrefixedShape(body);
    }
  }

  lemma PrefixedShape(body: string)
    requires PlainWord(body)
    ensures var tag := CutTo("img-" + body, MAX_TAG);
      4 < |tag| <= MAX_TAG && tag[..4] == "img-" && PlainWord(tag)
  {
    var whole := "img-" + body;
    assert whole[..4] == "img-" && whole[4] == body[0] && whole[|whole| - 1] == body[|body| - 1];
    assert body[0] in body;
    forall c | c in whole ensures Plain(c) {
      assert c in "img-" || c in body;
    }
    if |whole| > MAX_TAG {
      var cut := whole[..MAX_TAG];
      TrimRightKeeps(cut, 5);
      var tag := TrimRight(cut, Dash);
      assert tag == whole[..|tag|];
      assert tag[0] == 'i' && tag[..4] == whole[..4];
    } else {
      assert whole[0] == 'i';
    }
  }

  lemma {:induction false} TrimRightKeeps(s: string, n: nat)
    requires 0 < n <= |s| && !Dash(s[n - 1])
    ensures |TrimRight(s, Dash)| >= n
  {
    if Dash(s[|s| - 1]) {
      TrimRightKeeps(s[..|s| - 1], n);
    }
  }

  /** An image's tag is found in a semicolon list exactly when it has one and a list
      member trims to it. */
  lemma TagFoundInList(id: Digest, imageRef: string, list: seq<string>)
    requires list != [] && forall t :: t in list ==> ';' !in t
    ensures LXCHasOCIImageTag(id, Join(list, ';'), imageRef) <==>
      !Blank(imageRef) && exists t :: t in list && TrimSpace(t) == OCIImageProxmoxTag(id, imageRef)
  {
    SplitJoin(list, ';');
    TagShape(id, imageRef);
  }

  /** Such a word stands alone in a tag list: it holds no separator and nothing to trim. */
  lemma PlainWordIsOneField(word: string)
    requires PlainWord(word)
    ensures forall want :: PlainWord(want) ==> (HasField(word, want) <==> word == want)
    ensures !Blank(word)
  {
    assert !Plain(';');
    assert ';' !in word;
    SplitOne(word, ';');
    assert Plain(word[0]) by { assert word[0] in word; }
    assert Plain(word[|word| - 1]) by { assert word[|word| - 1] in word; }
    TrimNothing(word, IsSpace);
    assert Split(word, ';')[0] == word;
    forall want | PlainWord(want) ensures HasField(word, want) <==> word == want {
      assert word in Split(word, ';') && TrimSpace(word) == word;
    }
  }

  lemma FieldOfTag(tag: string, want: string)
    requires (tag == "" || PlainWord(tag)) && (want == "" || PlainWord(want))
    ensures HasField(tag, want) <==> want != "" && tag == want
    ensures Blank(tag) <==> tag == ""
  {
    if tag == "" {
      SplitOne(tag, ';');
      assert TrimSpace("") == "";
    } else {
      PlainWordIsOneField(tag);
    }
  }

  /** A tag that people set themselves names no image unless it starts like one. */
  lemma OtherWordNamesNothing(id: Digest, word: string, ref: string)
    requires PlainWord(word) && !("img-" <= word)
    ensures !LXCHasOCIImageTag(id, word, ref) && !Blank(word)
  {
    TagShape(id, ref);
    FieldOfTag(word, OCIImageProxmoxTag(id, ref));
  }

  /** A container tagged for one reference carries another's tag exactly when that
      other has a tag and the two are the same. */
  lemma TagOfAnother(id: Digest, created: string, wanted: string)
    ensures LXCHasOCIImageTag(id, OCIImageProxmoxTag(id, created), wanted) <==>
      !Blank(wanted) && OCIImageProxmoxTag(id, created) == OCIImageProxmoxTag(id, wanted)
    ensures Blank(OCIImageProxmoxTag(id, created)) <==> Blank(created)
  {
    TagShape(id, created);
    TagShape(id, wanted);
    FieldOfTag(OCIImageProxmoxTag(id, created), OCIImageProxmoxTag(id, wanted));
  }

  // ------------------------------------------------------ what a tag says of its reference

  /** What a tag shows of a character: ASCII letters in lower case, digits, and a dash for
      all others. */
  function Sign(c: char): char {
    if 'a' <= c <= 'z' || '0' <= c <= '9' then c
    else if 'A' <= c <= 'Z' then ('a' as int + (c as int - 'A' as int)) as char
    else '-'
  }

  lemma SignOf(c: char)
    ensures Kept(c) <==> Sign(c) != '-'
    ensures Lower(if Kept(c) then c else '-') == Sign(c)
  {
  }

  /** Letters and digits, with single separators between them. */
  ghost predicate Simple(ref: string) {
    && ref != [] && Sign(ref[0]) != '-' && Sign(ref[|ref| - 1]) != '-'
    && forall i, j :: 0 <= i < j < |ref| && j == i + 1 ==> Sign(ref[i]) != '-' || Sign(ref[j]) != '-'
  }

  ghost predicate Slug(ref: string, s: string) {
    |s| == |ref| && forall i :: 0 <= i < |ref| ==> s[i] == Sign(ref[i])
  }

  /** The same letters and digits up to upper case, and separators at the same places. */
  ghost predicate SameSigns(a: string, b: string) {
    |a| == |b| && forall i :: 0 <= i < |a| ==> Sign(a[i]) == Sign(b[i])
  }

  /** A dash for each separator, and nothing else made one. */
  ghost predicate DashFor(ref: string, d: string) {
    |d| == |ref| && forall i :: 0 <= i < |ref| ==> (d[i] == '-' <==> Sign(ref[i]) == '-') && d[i] != '.'
  }

  /** No letter and no digit. */
  ghost predicate Wordless(ref: string) {
    forall c :: c in ref ==> Sign(c) == '-'
  }

  lemma DashesApart(ref: string, d: string)
    requires Simple(ref) && DashFor(ref, d)
    ensures d != [] && !HasRun(d) && !Dash(d[0]) && !Dash(d[|d| - 1])
  {
    forall i | 0 <= i < |d| - 1 ensures !(d[i] == '-' && d[i + 1] == '-') {
      var j := i + 1;
      assert Sign(ref[i]) != '-' || Sign(ref[j]) != '-';
    }
  }

  lemma DashedHere(ref: string, d: string)
    requires d == Dashed(ref)
    ensures DashFor(ref, d)
  {
    forall i | 0 <= i < |ref| ensures (d[i] == '-' <==> Sign(ref[i]) == '-') && d[i] != '.' {
      SignOf(ref[i]);
      assert d[i] == if Kept(ref[i]) then ref[i] else '-';
    }
  }

  lemma LowerDashed(ref: string, d: string, low: string)
    requires d == Dashed(ref) && low == ToLower(d)
    ensures Slug(ref, low)
  {
    forall i | 0 <= i < |ref| ensures low[i] == Sign(ref[i]) {
      SignOf(ref[i]);
      assert d[i] == if Kept(ref[i]) then ref[i] else '-';
    }
  }

  /** Nothing is collapsed, trimmed or cut. */
  lemma NothingGoes(d: string)
    requires d != [] && !HasRun(d) && !Dash(d[0]) && !Dash(d[|d| - 1]) && |d| <= 200
    ensures CutTo(Trim(Collapse(d), Dash), MAX_FILE_BASE) == d
  {
    CollapseFixed(d);
    TrimNothing(d, Dash);
  }

  lemma NoSpaceAround(ref: string)
    requires Simple(ref)
    ensures TrimSpace(ref) == ref
  {
    TrimNothing(ref, IsSpace);
  }

  lemma SimpleStays(ref: string, d: string)
    requires Simple(ref) && |ref| <= 200 && d == Dashed(ref)
    ensures CutTo(Trim(Collapse(d), Dash), MAX_FILE_BASE) == d
  {
    DashedHere(ref, d);
    DashesApart(ref, d);
    NothingGoes(d);
  }

  lemma BaseOf(ref: string, d: string)
    requires ref != "" && TrimSpace(ref) == ref && Dashed(ref) == d
    requires CutTo(Trim(Collapse(d), Dash), MAX_FILE_BASE) == d
    ensures FileBase(ref) == ToLower(d)
  {
  }

  lemma SimpleBase(ref: string)
    requires Simple(ref) && |ref| <= 200
    ensures FileBase(ref) == ToLower(Dashed(ref))
  {
    NoSpaceAround(ref);
    SimpleStays(ref, Dashed(ref));
    BaseOf(ref, Dashed(ref));
  }

  lemma TagOf(id: Digest, ref: string, base: string)
    requires ref != "" && TrimSpace(ref) == ref && FileBase(ref) == base != "" && |base| <= 116
    ensures OCIImageProxmoxTag(id, ref) == "img-" + base
  {
  }

  /** The tag of a short simple reference says all of it but upper case and which
      separators it has. */
  lemma SimpleTag(id: Digest, ref: string)
    requires Simple(ref) && |ref| <= 116
    ensures var tag := OCIImageProxmoxTag(id, ref);
      4 < |tag| && tag[..4] == "img-" && Slug(ref, tag[4..])
  {
    NoSpaceAround(ref);
    SimpleBase(ref);
    var base := ToLower(Dashed(ref));
    LowerDashed(ref, Dashed(ref), base);
    TagOf(id, ref, base);
    assert ("img-" + base)[4..] == base;
  }

  lemma SlugsEqualExactly(a: string, b: string, s: string, t: string)
    requires Slug(a, s) && Slug(b, t)
    ensures s == t <==> SameSigns(a, b)
  {
    if SameSigns(a, b) {
      assert s == t;
    } else if |a| == |b| {
      var i :| 0 <= i < |a| && Sign(a[i]) != Sign(b[i]);
      assert s[i] != t[i];
    }
  }

  lemma AfterPrefix(s: string, t: string)
    requires 4 <= |s| && 4 <= |t| && s[..4] == t[..4]
    ensures s == t <==> s[4..] == t[4..]
  {
    assert s == s[..4] + s[4..] && t == t[..4] + t[4..];
  }

  /** So two of them have one tag exactly when they differ at most in that. */
  lemma SimpleTagsEqualExactly(id: Digest, a: string, b: string)
    requires Simple(a) && Simple(b) && |a| <= 116 && |b| <= 116
    ensures OCIImageProxmoxTag(id, a) == OCIImageProxmoxTag(id, b) <==> SameSigns(a, b)
  {
    SimpleTag(id, a);
    SimpleTag(id, b);
    AfterPrefix(OCIImageProxmoxTag(id, a), OCIImageProxmoxTag(id, b));
    SlugsEqualExactly(a, b, OCIImageProxmoxTag(id, a)[4..], OCIImageProxmoxTag(id, b)[4..]);
  }

  lemma AllDashes(d: string)
    requires forall c :: c in d ==> c == '-'
    ensures Trim(Collapse(d), Dash) == ""
  {
    CollapseHasNoRun(d);
    AllTrimmed(Collapse(d), Dash);
  }

  lemma OnlyDashes(ref: string, d: string)
    requires DashFor(ref, d) && Wordless(ref)
    ensures forall c :: c in d ==> c == '-'
  {
    forall c | c in d ensures c == '-' {
      var i :| 0 <= i < |d| && d[i] == c;
      assert ref[i] in ref;
    }
  }

  lemma WordlessGoes(ref: string, d: string)
    requires Wordless(ref) && d == Dashed(ref)
    ensures Trim(Collapse(d), Dash) == ""
  {
    DashedHere(ref, d);
    OnlyDashes(ref, d);
    AllDashes(d);
  }

  lemma NoBase(ref: string, d: string)
    requires TrimSpace(ref) == ref && d == Dashed(ref) && Trim(Collapse(d), Dash) == ""
    ensures FileBase(ref) == ""
  {
    if ref != "" {
      assert CutTo("", MAX_FILE_BASE) == "";
    }
  }

  lemma WordlessBase(ref: string)
    requires TrimSpace(ref) == ref && Wordless(ref)
    ensures FileBase(ref) == ""
  {
    WordlessGoes(ref, Dashed(ref));
    NoBase(ref, Dashed(ref));
  }

  lemma DigestTagOf(id: Digest, ref: string, h: string)
    requires ref != "" && TrimSpace(ref) == ref && FileBase(ref) == "" && h == id(ref)
    ensures OCIImageProxmoxTag(id, ref) == "img-" + ("x-" + h)
  {
    assert Hex16(h);
    assert |"img-" + ("x-" + h)| == 22;
  }

  /** A reference without letters and digits is told apart by its digest. */
  lemma DigestTag(id: Digest, ref: string)
    requires ref != "" && TrimSpace(ref) == ref && Wordless(ref)
    ensures OCIImageProxmoxTag(id, ref) == "img-" + ("x-" + id(ref))
  {
    assert FileBase(ref) == "" by {
      WordlessBase(ref);
    }
    DigestTagOf(id, ref, id(ref));
  }
}
