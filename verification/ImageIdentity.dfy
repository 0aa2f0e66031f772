/** Which guest image a Lima YAML boots, read line by line, and the reaping of
    VMs whose image is no longer the template's. */
module ImageIdentity {
  import opened Names
  import opened YamlScalars

  datatype Image = Image(location: string, digest: Option<string>)

  // ---- lines ------------------------------------------------------------

  predicate IsTopLevelKeyLine(line: string) {
    line != "" && !(line[0] == ' ' || line[0] == '\t' || line[0] == '-' || line[0] == '#')
  }

  const IMAGES: string := "images:"
  const LOCATION: string := "location:"
  const DIGEST: string := "digest:"
  const DASH: string := "- "

  predicate IsImagesKey(line: string) { IsTopLevelKeyLine(line) && HasPrefix(line, IMAGES) }

  /** The line without indentation and without a list-item dash. */
  function ItemText(line: string): string {
    var t := Trim(line);
    if HasPrefix(t, DASH) then TrimStart(t[|DASH|..]) else t
  }

  // ---- what the parse depends on ----------------------------------------

  datatype Entry = Location(value: Option<string>) | Digest(value: Option<string>) | Other

  datatype Line = Line(isKey: bool, isImages: bool, dash: bool, entry: Entry)

  function EntryOf(text: string): Entry {
    if HasPrefix(text, LOCATION) then Location(Normalize(text[|LOCATION|..]))
    else if HasPrefix(text, DIGEST) then Digest(Normalize(text[|DIGEST|..]))
    else Other
  }

  function Classify(line: string): Line {
    Line(IsTopLevelKeyLine(line), IsImagesKey(line), HasPrefix(Trim(line), DASH), EntryOf(ItemText(line)))
  }

  function Classified(lines: seq<string>): seq<Line> {
    if lines == [] then [] else [Classify(lines[0])] + Classified(lines[1..])
  }

  function DigestOf(ls: seq<Line>): Option<string> {
    if ls == [] || ls[0].isKey || ls[0].dash || ls[0].entry.Location? then None
    else if ls[0].entry.Digest? then ls[0].entry.value
    else DigestOf(ls[1..])
  }

  function FromBlock(ls: seq<Line>): Option<Image> {
    if ls == [] || ls[0].isKey then None
    else if ls[0].entry.Location? && ls[0].entry.value.Some? then
      Some(Image(ls[0].entry.value.value, DigestOf(ls[1..])))
    else FromBlock(ls[1..])
  }

  function Identity(ls: seq<Line>): Option<Image> {
    if ls == [] then None else if ls[0].isImages then FromBlock(ls[1..]) else Identity(ls[1..])
  }

  lemma ClassifiedFrom(lines: seq<string>, n: nat)
    requires n < |lines|
    ensures Classified(lines[n..]) == [Classify(lines[n])] + Classified(lines[n + 1..])
  {
    assert lines[n..][1..] == lines[n + 1..];
  }

  // ---- the loops of parse_image_identity --------------------------------

  lemma BlockStep(lines: seq<string>, n: nat)
    requires n < |lines|
    ensures FromBlock(Classified(lines[n..])) ==
              var e := Classify(lines[n]).entry;
              if IsTopLevelKeyLine(lines[n]) then None
              else if e.Location? && e.value.Some? then Some(Image(e.value.value, DigestOf(Classified(lines[n + 1..]))))
              else FromBlock(Classified(lines[n + 1..]))
  {
    ClassifiedFrom(lines, n);
  }

  /** The usable `location:` of a line, if it has one. */
  method LocationOn(line: string) returns (location: Option<string>)
    ensures var e := Classify(line).entry; location == if e.Location? then e.value else None
  {
    var t := Trim(line);
    if HasPrefix(t, DASH) { t := TrimStart(t[|DASH|..]); }
    if !HasPrefix(t, LOCATION) { return None; }
    return Normalize(t[|LOCATION|..]);
  }

  /** Scan for the first usable `location:` of the block; `next` is the line after it. */
  method FindLocation(lines: seq<string>, from: nat) returns (next: nat, location: Option<string>)
    requires from <= |lines|
    ensures next <= |lines|
    ensures FromBlock(Classified(lines[from..])) ==
              if location.None? then None else Some(Image(location.value, DigestOf(Classified(lines[next..]))))
  {
    next := from;
    ghost var goal := FromBlock(Classified(lines[from..]));
    while next < |lines|
      invariant from <= next <= |lines|
      invariant goal == FromBlock(Classified(lines[next..]))
    {
      BlockStep(lines, next);
      var line := lines[next];
      if IsTopLevelKeyLine(line) { return next, None; }
      location := LocationOn(line);
      next := next + 1;
      if location.Some? { return; }
    }
    location := None;
  }

  method FindDigest(lines: seq<string>, from: nat) returns (digest: Option<string>)
    requires from <= |lines|
    ensures digest == DigestOf(Classified(lines[from..]))
  {
    var n := from;
    ghost var goal := DigestOf(Classified(lines[from..]));
    while n < |lines|
      invariant from <= n <= |lines|
      invariant goal == DigestOf(Classified(lines[n..]))
    {
      ClassifiedFrom(lines, n);
      var t := Trim(lines[n]);
      if IsTopLevelKeyLine(lines[n]) || HasPrefix(t, DASH) || HasPrefix(t, LOCATION) { return None; }
      if HasPrefix(t, DIGEST) { return Normalize(t[|DIGEST|..]); }
      n := n + 1;
    }
    return None;
  }

  method ParseBlock(lines: seq<string>, from: nat) returns (r: Option<Image>)
    requires from <= |lines|
    ensures r == FromBlock(Classified(lines[from..]))
  {
    var n, location := FindLocation(lines, from);
    if location.None? { return None; }
    var digest := FindDigest(lines, n);
    return Some(Image(location.value, digest));
  }

  method ParseImageIdentity(lines: seq<string>) returns (r: Option<Image>)
    ensures r == Identity(Classified(lines))
  {
    assert lines[0..] == lines;
    var n := 0;
    ghost var goal := Identity(Classified(lines));
    while n < |lines| && !IsImagesKey(lines[n])
      invariant 0 <= n <= |lines|
      invariant goal == Identity(Classified(lines[n..]))
    {
      ClassifiedFrom(lines, n);
      n := n + 1;
    }
    if n == |lines| { return None; }
    ClassifiedFrom(lines, n);
    r := ParseBlock(lines, n + 1);
  }

  // ---- only the images block matters ------------------------------------

  lemma {:induction false} BeforeImagesIgnored(before: seq<Line>, rest: seq<Line>)
    requires forall i :: 0 <= i < |before| ==> !before[i].isImages
    ensures Identity(before + rest) == Identity(rest)
  {
    if before == [] {
      assert before + rest == rest;
    } else {
      assert (before + rest)[1..] == before[1..] + rest;
      BeforeImagesIgnored(before[1..], rest);
    }
  }

  lemma {:induction false} DigestIgnoresAfterKey(block: seq<Line>, rest: seq<Line>)
    requires rest != [] && rest[0].isKey
    ensures DigestOf(block + rest) == DigestOf(block)
  {
    if block == [] {
      assert block + rest == rest;
    } else {
      assert (block + rest)[1..] == block[1..] + rest;
      DigestIgnoresAfterKey(block[1..], rest);
    }
  }

  lemma {:induction false} BlockIgnoresAfterKey(block: seq<Line>, rest: seq<Line>)
    requires rest != [] && rest[0].isKey
    ensures FromBlock(block + rest) == FromBlock(block)
  {
    if block == [] {
      assert block + rest == rest;
    } else {
      assert (block + rest)[1..] == block[1..] + rest;
      DigestIgnoresAfterKey(block[1..], rest);
      BlockIgnoresAfterKey(block[1..], rest);
    }
  }

  lemma {:induction false} ClassifiedAppend(a: seq<string>, b: seq<string>)
    ensures Classified(a + b) == Classified(a) + Classified(b)
  {
    if a == [] {
      assert a + b == b;
    } else {
      assert (a + b)[1..] == a[1..] + b;
      ClassifiedAppend(a[1..], b);
    }
  }

  lemma {:induction false} NoImagesKeys(lines: seq<string>)
    requires forall i :: 0 <= i < |lines| ==> !IsImagesKey(lines[i])
    ensures forall i :: 0 <= i < |Classified(lines)| ==> !Classified(lines)[i].isImages
  {
    if lines != [] { NoImagesKeys(lines[1..]); }
  }

  lemma ImagesThen(images: string, block: seq<string>)
    requires IsImagesKey(images)
    ensures Identity(Classified([images] + block)) == FromBlock(Classified(block))
  {
    ClassifiedAppend([images], block);
    assert (Classified([images]) + Classified(block))[1..] == Classified(block);
  }

  /** Only the first top-level `images:` block matters: neither the lines before
      it nor those from the next top-level key on. */
  lemma OnlyImagesBlockMatters(before: seq<string>, images: string, block: seq<string>, rest: seq<string>)
    requires forall i :: 0 <= i < |before| ==> !IsImagesKey(before[i])
    requires IsImagesKey(images) && (rest == [] || IsTopLevelKeyLine(rest[0]))
    ensures Identity(Classified(before + ([images] + (block + rest)))) == Identity(Classified([images] + block))
  {
    ClassifiedAppend(before, [images] + (block + rest));
    NoImagesKeys(before);
    BeforeImagesIgnored(Classified(before), Classified([images] + (block + rest)));
    ImagesThen(images, block + rest);
    ImagesThen(images, block);
    if rest == [] {
      assert block + rest == block;
    } else {
      ClassifiedAppend(block, rest);
      BlockIgnoresAfterKey(Classified(block), Classified(rest));
    }
  }

  // ---- what the parse finds ---------------------------------------------

  /** A line of the block that is not a usable location. */
  predicate Skipped(line: string) {
    !IsTopLevelKeyLine(line) && !(EntryOf(ItemText(line)).Location? && EntryOf(ItemText(line)).value.Some?)
  }

  /** A line of the first image's item that is neither its end nor its digest. */
  predicate Sibling(line: string) {
    !IsTopLevelKeyLine(line) && !HasPrefix(Trim(line), DASH) && EntryOf(ItemText(line)).Other?
  }

  lemma {:induction false} SiblingsSkipped(siblings: seq<string>, rest: seq<string>)
    requires forall i :: 0 <= i < |siblings| ==> Sibling(siblings[i])
    ensures DigestOf(Classified(siblings + rest)) == DigestOf(Classified(rest))
  {
    if siblings == [] {
      assert siblings + rest == rest;
    } else {
      assert (siblings + rest)[1..] == siblings[1..] + rest;
      SiblingsSkipped(siblings[1..], rest);
    }
  }

  lemma {:induction false} SkippedInBlock(skipped: seq<string>, rest: seq<string>)
    requires forall i :: 0 <= i < |skipped| ==> Skipped(skipped[i])
    ensures FromBlock(Classified(skipped + rest)) == FromBlock(Classified(rest))
  {
    if skipped == [] {
      assert skipped + rest == rest;
    } else {
      assert (skipped + rest)[1..] == skipped[1..] + rest;
      SkippedInBlock(skipped[1..], rest);
    }
  }

  predicate DigestLine(line: string) { !IsTopLevelKeyLine(line) && HasPrefix(Trim(line), DIGEST) }

  predicate UsableLocation(line: string) {
    !IsTopLevelKeyLine(line) && HasPrefix(ItemText(line), LOCATION) && Normalize(ItemText(line)[|LOCATION|..]).Some?
  }

  lemma DigestFound(siblings: seq<string>, digest: string, rest: seq<string>)
    requires (forall i :: 0 <= i < |siblings| ==> Sibling(siblings[i])) && DigestLine(digest)
    ensures DigestOf(Classified(siblings + ([digest] + rest))) == Normalize(Trim(digest)[|DIGEST|..])
  {
    SiblingsSkipped(siblings, [digest] + rest);
    assert ([digest] + rest)[1..] == rest;
    assert Classified([digest] + rest)[0] == Classify(digest);
  }

  lemma LocationFound(location: string, after: seq<string>)
    requires UsableLocation(location)
    ensures FromBlock(Classified([location] + after)) ==
              Some(Image(Normalize(ItemText(location)[|LOCATION|..]).value, DigestOf(Classified(after))))
  {
    assert ([location] + after)[1..] == after;
    assert Classified([location] + after) == [Classify(location)] + Classified(after);
    assert ([Classify(location)] + Classified(after))[1..] == Classified(after);
  }

  /** The identity is the first usable location of the block, with the digest that
      follows it in the same item. */
  lemma FirstImageFound(images: string, skipped: seq<string>, location: string, siblings: seq<string>, digest: string,
                        rest: seq<string>)
    requires IsImagesKey(images) && (forall i :: 0 <= i < |skipped| ==> Skipped(skipped[i])) && UsableLocation(location)
    requires (forall i :: 0 <= i < |siblings| ==> Sibling(siblings[i])) && DigestLine(digest)
    ensures Identity(Classified([images] + (skipped + ([location] + (siblings + ([digest] + rest)))))) ==
              Some(Image(Normalize(ItemText(location)[|LOCATION|..]).value, Normalize(Trim(digest)[|DIGEST|..])))
  {
    var after := siblings + ([digest] + rest);
    ImagesThen(images, skipped + ([location] + after));
    SkippedInBlock(skipped, [location] + after);
    LocationFound(location, after);
    DigestFound(siblings, digest, rest);
  }

  /** A line that ends the first image's item. */
  predicate EndsItem(line: string) {
    IsTopLevelKeyLine(line) || HasPrefix(Trim(line), DASH) || HasPrefix(Trim(line), LOCATION)
  }

  /** An item that ends before any `digest:`, at a dash, another location, the next
      top-level key or the end of the file, gives the location alone: the digest of
      a later image is never borrowed. */
  lemma FirstImageWithoutDigest(images: string, skipped: seq<string>, location: string, siblings: seq<string>,
                                rest: seq<string>)
    requires IsImagesKey(images) && (forall i :: 0 <= i < |skipped| ==> Skipped(skipped[i])) && UsableLocation(location)
    requires (forall i :: 0 <= i < |siblings| ==> Sibling(siblings[i])) && (rest == [] || EndsItem(rest[0]))
    ensures Identity(Classified([images] + (skipped + ([location] + (siblings + rest))))) ==
              Some(Image(Normalize(ItemText(location)[|LOCATION|..]).value, None))
  {
    ImagesThen(images, skipped + ([location] + (siblings + rest)));
    SkippedInBlock(skipped, [location] + (siblings + rest));
    LocationFound(location, siblings + rest);
    SiblingsSkipped(siblings, rest);
    if rest != [] { assert Classified(rest)[0] == Classify(rest[0]); }
  }

  /** No usable location before the block ends: no image. */
  lemma NoImageFound(images: string, skipped: seq<string>, rest: seq<string>)
    requires IsImagesKey(images) && (forall i :: 0 <= i < |skipped| ==> Skipped(skipped[i]))
    requires rest == [] || IsTopLevelKeyLine(rest[0])
    ensures Identity(Classified([images] + (skipped + rest))) == None
  {
    ImagesThen(images, skipped + rest);
    SkippedInBlock(skipped, rest);
    if rest != [] { assert Classified(rest)[0] == Classify(rest[0]); }
  }

  /** These are all the cases: what follows the location splits into siblings and,
      if anything is left, a digest or the end of the item. */
  lemma {:induction false} ItemSplits(after: seq<string>) returns (siblings: seq<string>, rest: seq<string>)
    ensures after == siblings + rest && forall i :: 0 <= i < |siblings| ==> Sibling(siblings[i])
    ensures rest == [] || EndsItem(rest[0]) || DigestLine(rest[0])
  {
    siblings, rest := [], after;
    if after != [] && Sibling(after[0]) {
      siblings, rest := ItemSplits(after[1..]);
      siblings := [after[0]] + siblings;
    }
  }

  // ---- a realized copy without comments ---------------------------------

  /** Any value on the line is scanned to its end outside quotes, so that a
      comment may be appended to it. */
  predicate CommentSafe(line: string) {
    var t := ItemText(line);
    && (HasPrefix(t, LOCATION) ==> EndsOutside(t[|LOCATION|..]))
    && (HasPrefix(t, DIGEST) ==> EndsOutside(t[|DIGEST|..]))
  }

  /** `realized` is the line itself or the line without its trailing comment. */
  ghost predicate LineCopied(line: string, realized: string) {
    line == realized || (CommentSafe(realized) && exists c :: line == realized + Comment(c))
  }

  /** A blank line or a comment of its own. */
  predicate Insignificant(line: string) {
    !IsTopLevelKeyLine(line) && (Trim(line) == "" || Trim(line)[0] == '#')
  }

  /** Lima's realized copy of a template, as far as this parse goes: line by line
      the same, but for comments and blank lines dropped. */
  ghost predicate Copied(template: seq<string>, realized: seq<string>) {
    if template == [] then realized == []
    else
      || (Insignificant(template[0]) && Copied(template[1..], realized))
      || (realized != [] && LineCopied(template[0], realized[0]) && Copied(template[1..], realized[1..]))
  }

  lemma KeyPrefix(text: string, tail: string, key: string)
    requires tail != "" && IsSpace(tail[0]) && forall i :: 0 <= i < |key| ==> !IsSpace(key[i])
    ensures HasPrefix(text + tail, key) <==> HasPrefix(text, key)
  {
    if |text| < |key| {
      assert (text + tail)[|text|] == tail[0] != key[|text|];
    } else {
      assert (text + tail)[..|key|] == text[..|key|];
    }
  }

  lemma ValueCommented(text: string, key: string, blank: string, c: string)
    requires AllSpace(blank) && HasPrefix(text, key) && EndsOutside(text[|key|..])
    ensures Normalize((text + (blank + Comment(c)))[|key|..]) == Normalize(text[|key|..])
  {
    var v, tail := text[|key|..], blank + Comment(c);
    assert (text + tail)[|key|..] == v + tail;
    BlankCommentIgnored(v, blank, c);
  }

  lemma EntryCommented(text: string, blank: string, c: string)
    requires AllSpace(blank)
    requires HasPrefix(text, LOCATION) ==> EndsOutside(text[|LOCATION|..])
    requires HasPrefix(text, DIGEST) ==> EndsOutside(text[|DIGEST|..])
    ensures EntryOf(text + (blank + Comment(c))) == EntryOf(text)
  {
    var tail := blank + Comment(c);
    KeyPrefix(text, tail, LOCATION);
    KeyPrefix(text, tail, DIGEST);
    if HasPrefix(text, LOCATION) { ValueCommented(text, LOCATION, blank, c); }
    else if HasPrefix(text, DIGEST) { ValueCommented(text, DIGEST, blank, c); }
  }

  lemma {:induction false} HashBlocksTrim(x: string, c: string)
    ensures TrimEnd(x + Comment(c)) == x + Comment(TrimEnd(c))
  {
    var t := x + Comment(c);
    if c == "" || !IsSpace(c[|c| - 1]) {
      assert t[|t| - 1] == if c == "" then '#' else c[|c| - 1];
    } else {
      assert t[..|t| - 1] == x + Comment(c[..|c| - 1]);
      HashBlocksTrim(x, c[..|c| - 1]);
    }
  }

  lemma {:induction false} BlankThenComment(blank: string, c: string)
    requires AllSpace(blank)
    ensures TrimStart(blank + Comment(c)) == "#" + c
  {
    if blank == "" {
      assert blank + Comment(c) == Comment(c) && Comment(c)[1..] == "#" + c;
    } else {
      assert (blank + Comment(c))[1..] == blank[1..] + Comment(c);
      BlankThenComment(blank[1..], c);
    }
  }

  lemma {:induction false} HashTrimEnd(c: string)
    ensures TrimEnd("#" + c) == "#" + TrimEnd(c)
  {
    var t := "#" + c;
    if c == "" || !IsSpace(c[|c| - 1]) {
      assert t[|t| - 1] == if c == "" then '#' else c[|c| - 1];
    } else {
      assert t[..|t| - 1] == "#" + c[..|c| - 1];
      HashTrimEnd(c[..|c| - 1]);
    }
  }

  lemma NotAllBlank(s: string)
    requires s != "" && !IsSpace(s[0])
    ensures TrimEnd(s) != ""
  {
    var blank := TrimEndSplit(s);
    assert s[0] == (TrimEnd(s) + blank)[0];
  }

  /** How trimming sees a line with a comment appended. */
  lemma TrimCommented(line: string, c: string) returns (blank: string, c': string)
    ensures AllSpace(blank)
    ensures Trim(line + Comment(c)) == if Trim(line) == "" then "#" + c' else Trim(line) + (blank + Comment(c'))
  {
    var start := TrimStart(line);
    blank := TrimEndSplit(start);
    c' := TrimEnd(c);
    TrimStartBlank(line);
    if start == "" {
      BlankThenComment(line, c);
      HashTrimEnd(c);
    } else {
      TrimStartAppend(line, Comment(c));
      HashBlocksTrim(start, c);
      TrimStartBlank(start);
      NotAllBlank(start);
      assert start + Comment(c') == TrimEnd(start) + (blank + Comment(c'));
    }
  }

  predicate LoneDash(line: string) { Trim(line) == "-" }

  lemma TrimEndsDark(line: string)
    ensures Trim(line) != "" ==> !IsSpace(Trim(line)[|Trim(line)| - 1])
  {
    var blank := TrimEndSplit(TrimStart(line));
  }

  lemma DashCommented(t: string, tail: string)
    requires |t| >= 2 && !IsSpace(t[|t| - 1])
    ensures HasPrefix(t + tail, DASH) <==> HasPrefix(t, DASH)
    ensures HasPrefix(t, DASH) ==> TrimStart((t + tail)[|DASH|..]) == TrimStart(t[|DASH|..]) + tail
  {
    assert (t + tail)[..2] == t[..2];
    if HasPrefix(t, DASH) {
      assert |t| > 2;
      TrimStartBlank(t[2..]);
      assert t[2..][|t| - 3] == t[|t| - 1];
      TrimStartAppend(t[2..], tail);
      assert (t + tail)[2..] == t[2..] + tail;
    }
  }

  lemma SingleCommented(t: string, tail: string)
    requires |t| == 1 && t != "-"
    ensures !HasPrefix(t, DASH) && !HasPrefix(t + tail, DASH)
  {
    assert t == [t[0]] && (t + tail)[0] == t[0];
  }

  lemma HashTextIsOther(text: string)
    requires text != "" && text[0] == '#'
    ensures EntryOf(text) == Other && !HasPrefix(text, DASH)
  {}

  lemma KeysCommented(line: string, c: string)
    ensures IsTopLevelKeyLine(line + Comment(c)) == IsTopLevelKeyLine(line)
    ensures IsImagesKey(line + Comment(c)) == IsImagesKey(line)
  {
    KeyPrefix(line, Comment(c), IMAGES);
  }

  lemma LoneDashText(blank: string, c: string)
    requires AllSpace(blank)
    ensures EntryOf("-" + (blank + Comment(c))) == Other
    ensures |"-" + (blank + Comment(c))| > |DASH| && EntryOf(TrimStart(("-" + (blank + Comment(c)))[|DASH|..])) == Other
  {
    HashTextIsOther("#" + c);
    if blank == "" {
      assert ("-" + (blank + Comment(c)))[2..] == "#" + c;
    } else {
      assert ("-" + (blank + Comment(c)))[2..] == blank[1..] + Comment(c);
      BlankThenComment(blank[1..], c);
    }
  }

  /** A comment changes nothing a line means, except that it completes the dash
      of a line that holds nothing else. */
  lemma CommentedLine(line: string, c: string)
    requires CommentSafe(line)
    ensures !LoneDash(line) ==> Classify(line + Comment(c)) == Classify(line)
    ensures LoneDash(line) ==> Classify(line + Comment(c)) in {Classify(line), Classify(line).(dash := true)}
    ensures LoneDash(line) ==> Classify(line).entry == Other
  {
    var t, commented := Trim(line), line + Comment(c);
    KeysCommented(line, c);
    var blank, c' := TrimCommented(line, c);
    var tail := blank + Comment(c');
    TrimEndsDark(line);
    if t == "" {
      HashTextIsOther("#" + c');
    } else if |t| >= 2 {
      DashCommented(t, tail);
      EntryCommented(ItemText(line), blank, c');
    } else if t != "-" {
      SingleCommented(t, tail);
      EntryCommented(t, blank, c');
    } else {
      LoneDashText(blank, c');
    }
  }

  // ---- the copy is never stale ------------------------------------------

  /** The same image, with the digest possibly not seen in `a`. */
  predicate Agrees(a: Option<Image>, b: Option<Image>) {
    a == b || (a.Some? && b.Some? && a.value.location == b.value.location && a.value.digest.None?)
  }

  lemma InsignificantSkipped(line: string)
    requires Insignificant(line)
    ensures var l := Classify(line); !l.isKey && !l.isImages && !l.dash && l.entry == Other
  {
    if Trim(line) != "" { HashTextIsOther(Trim(line)); }
  }

  lemma CopiedLine(line: string, realized: string)
    requires LineCopied(line, realized)
    ensures var a, b := Classify(line), Classify(realized);
            a == b || (a == b.(dash := true) && b.entry == Other)
    ensures !LoneDash(realized) ==> Classify(line) == Classify(realized)
  {
    if line != realized {
      var c :| line == realized + Comment(c);
      CommentedLine(realized, c);
    }
  }

  predicate NoLoneDash(lines: seq<string>) { forall i :: 0 <= i < |lines| ==> !LoneDash(lines[i]) }

  /** The head of a copy: dropped, or matched with the head of the realized file. */
  lemma CopiedHead(template: seq<string>, realized: seq<string>)
    requires template != [] && Copied(template, realized)
    ensures Classified(template) == [Classify(template[0])] + Classified(template[1..])
    ensures realized != [] ==> Classified(realized) == [Classify(realized[0])] + Classified(realized[1..])
  {
    ClassifiedFrom(template, 0);
    if realized != [] { ClassifiedFrom(realized, 0); }
  }

  lemma {:induction false} DigestCopied(template: seq<string>, realized: seq<string>)
    requires Copied(template, realized)
    ensures var a, b := DigestOf(Classified(template)), DigestOf(Classified(realized)); a == b || a == None
    ensures NoLoneDash(realized) ==> DigestOf(Classified(template)) == DigestOf(Classified(realized))
    decreases |template|
  {
    if template != [] {
      CopiedHead(template, realized);
      if Insignificant(template[0]) && Copied(template[1..], realized) {
        InsignificantSkipped(template[0]);
        DigestCopied(template[1..], realized);
      } else {
        CopiedLine(template[0], realized[0]);
        DigestCopied(template[1..], realized[1..]);
      }
    }
  }

  lemma {:induction false} BlockCopied(template: seq<string>, realized: seq<string>)
    requires Copied(template, realized)
    ensures Agrees(FromBlock(Classified(template)), FromBlock(Classified(realized)))
    ensures NoLoneDash(realized) ==> FromBlock(Classified(template)) == FromBlock(Classified(realized))
    decreases |template|
  {
    if template != [] {
      CopiedHead(template, realized);
      if Insignificant(template[0]) && Copied(template[1..], realized) {
        InsignificantSkipped(template[0]);
        BlockCopied(template[1..], realized);
      } else {
        CopiedLine(template[0], realized[0]);
        DigestCopied(template[1..], realized[1..]);
        BlockCopied(template[1..], realized[1..]);
      }
    }
  }

  /** A template and its realized copy name the same image; only a dash alone on
      its line can hide a digest of the template. */
  lemma {:induction false} CopyNamesSameImage(template: seq<string>, realized: seq<string>)
    requires Copied(template, realized)
    ensures Agrees(Identity(Classified(template)), Identity(Classified(realized)))
    ensures NoLoneDash(realized) ==> Identity(Classified(template)) == Identity(Classified(realized))
    decreases |template|
  {
    if template != [] {
      CopiedHead(template, realized);
      if Insignificant(template[0]) && Copied(template[1..], realized) {
        InsignificantSkipped(template[0]);
        CopyNamesSameImage(template[1..], realized);
      } else {
        CopiedLine(template[0], realized[0]);
        BlockCopied(template[1..], realized[1..]);
        CopyNamesSameImage(template[1..], realized[1..]);
      }
    }
  }

  // ---- the reap plan ----------------------------------------------------

  predicate IsStaleImage(vm: Image, current: Image) {
    vm.location != current.location || (vm.digest.Some? && current.digest.Some? && vm.digest != current.digest)
  }

  datatype ManagedVm = ManagedVm(name: string, image: Option<Image>)

  datatype VmReap = Orphan(name: string) | StaleImage(name: string, curPath: string, location: string)

  /** A VM is reaped for want of a claim, or with its claim because it was booted
      from another image than the template's. */
  predicate Reaps(vm: ManagedVm, live: map<string, string>, current: Option<Image>, r: VmReap) {
    match r
    case Orphan(name) => name == vm.name && name !in live
    case StaleImage(name, path, location) =>
      && name == vm.name && name in live && path == live[name]
      && current.Some? && vm.image.Some? && vm.image.value.location == location
      && (location != current.value.location
          || (vm.image.value.digest.Some? && current.value.digest.Some?
              && vm.image.value.digest != current.value.digest))
  }

  /** `live` maps the VM name of each claim in `cur/` to its path; `None` when
      `cur/` could not be read. */
  method PlanVmReaps(managed: seq<ManagedVm>, live: Option<map<string, string>>, current: Option<Image>)
    returns (plan: seq<VmReap>)
    ensures live.None? ==> plan == []
    ensures live.Some? ==> forall r :: r in plan <==>
              exists i :: 0 <= i < |managed| && Reaps(managed[i], live.value, current, r)
    ensures |plan| <= |managed|
  {
    plan := [];
    if live.None? { return; }
    var i := 0;
    while i < |managed|
      invariant 0 <= i <= |managed| && |plan| <= i
      invariant forall r :: r in plan <==> exists k :: 0 <= k < i && Reaps(managed[k], live.value, current, r)
    {
      var vm := managed[i];
      if vm.name !in live.value {
        plan := plan + [Orphan(vm.name)];
      } else if current.Some? && vm.image.Some? && IsStaleImage(vm.image.value, current.value) {
        plan := plan + [StaleImage(vm.name, live.value[vm.name], vm.image.value.location)];
      }
      i := i + 1;
    }
  }

  /** A claimed VM booted from a copy of the current template is never reaped,
      even when the template carries comments its copy does not. */
  lemma ClaimedCurrentVmSpared(name: string, template: seq<string>, realized: seq<string>, live: map<string, string>,
                               r: VmReap)
    requires Copied(template, realized) && name in live
    ensures !Reaps(ManagedVm(name, Identity(Classified(realized))), live, Identity(Classified(template)), r)
  {
    CopyNamesSameImage(template, realized);
  }
}
