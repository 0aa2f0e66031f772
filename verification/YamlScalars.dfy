/** The scalar values of a Lima YAML line: trimming, inline comments, quotes and
    the `scheme://` prefix, read without a YAML parser. */
module YamlScalars {
  import opened Names

  // ---- trimming ---------------------------------------------------------

  /** `char::is_whitespace` */
  predicate IsSpace(c: char) {
    || '\t' <= c <= '\r' || c == ' ' || c == '\U{85}' || c == '\U{A0}' || c == '\U{1680}'
    || '\U{2000}' <= c <= '\U{200A}' || c == '\U{2028}' || c == '\U{2029}' || c == '\U{202F}'
    || c == '\U{205F}' || c == '\U{3000}'
  }

  predicate AllSpace(s: string) { forall i :: 0 <= i < |s| ==> IsSpace(s[i]) }

  function TrimStart(s: string): string {
    if s != "" && IsSpace(s[0]) then TrimStart(s[1..]) else s
  }

  function TrimEnd(s: string): string {
    if s != "" && IsSpace(s[|s| - 1]) then TrimEnd(s[..|s| - 1]) else s
  }

  function Trim(s: string): string { TrimEnd(TrimStart(s)) }

  // ---- inline comments --------------------------------------------------

  predicate IsQuote(c: char) { c == '"' || c == '\'' }

  function StepQuote(open: Option<char>, c: char): Option<char> {
    if open.Some? then (if c == open.value then None else open)
    else if IsQuote(c) then Some(c) else None
  }

  /** The quote open after the first `i` characters. */
  function QuoteAt(s: string, i: nat): (q: Option<char>)
    requires i <= |s|
    ensures q.Some? ==> IsQuote(q.value)
  {
    if i == 0 then None else StepQuote(QuoteAt(s, i - 1), s[i - 1])
  }

  /** A `#` outside quotes that starts the string or follows a blank or a quote. */
  predicate CommentAt(s: string, i: nat) {
    && i < |s| && s[i] == '#' && QuoteAt(s, i).None?
    && (i == 0 || s[i - 1] == ' ' || s[i - 1] == '\t' || IsQuote(s[i - 1]))
  }

  function FirstComment(s: string, from: nat): (i: nat)
    requires from <= |s|
    ensures from <= i <= |s|
    ensures i < |s| ==> CommentAt(s, i)
    ensures forall k :: from <= k < i ==> !CommentAt(s, k)
    decreases |s| - from
  {
    if from == |s| || CommentAt(s, from) then from else FirstComment(s, from + 1)
  }

  function StripComment(s: string): string {
    var i := FirstComment(s, 0);
    if i < |s| then TrimEnd(s[..i]) else s
  }

  method StripInlineComment(value: string) returns (r: string)
    ensures r == StripComment(value)
  {
    var quote: Option<char>, i := None, 0;
    while i < |value|
      invariant 0 <= i <= |value|
      invariant quote == QuoteAt(value, i)
      invariant forall k :: 0 <= k < i ==> !CommentAt(value, k)
    {
      var b := value[i];
      if quote.Some? {
        if b == quote.value { quote := None; }
      } else if IsQuote(b) {
        quote := Some(b);
      } else if b == '#' && (i == 0 || value[i - 1] == ' ' || value[i - 1] == '\t' || IsQuote(value[i - 1])) {
        assert CommentAt(value, i);
        return TrimEnd(value[..i]);
      }
      i := i + 1;
    }
    return value;
  }

  // ---- scalar values ----------------------------------------------------

  function Unquote(v: string): string {
    if |v| >= 2 && v[0] == '"' && v[|v| - 1] == '"' then v[1..|v| - 1]
    else if |v| >= 2 && v[0] == '\'' && v[|v| - 1] == '\'' then v[1..|v| - 1]
    else v
  }

  predicate EndsInScheme(v: string) { |v| >= 3 && v[|v| - 3] == ':' && v[|v| - 2] == '/' && v[|v| - 1] == '/' }

  /** `v.split("://").last()` */
  function AfterScheme(v: string): string {
    if v == "" || EndsInScheme(v) then "" else AfterScheme(v[..|v| - 1]) + [v[|v| - 1]]
  }

  function Normalize(value: string): Option<string> {
    var v := Trim(Unquote(Trim(StripComment(value))));
    if v == "" || AfterScheme(v) == "" then None else Some(AfterScheme(v))
  }

  /** The scan reaches its end, or a comment, outside quotes. */
  predicate EndsOutside(v: string) { FirstComment(v, 0) < |v| || QuoteAt(v, |v|).None? }

  lemma {:induction false} QuoteOfPrefix(s: string, t: string, i: nat)
    requires i <= |s|
    ensures QuoteAt(s + t, i) == QuoteAt(s, i)
  {
    if i > 0 { QuoteOfPrefix(s, t, i - 1); }
  }

  lemma CommentInPrefix(s: string, t: string)
    ensures forall i :: 0 <= i < |s| ==> (CommentAt(s + t, i) <==> CommentAt(s, i))
    ensures FirstComment(s, 0) < |s| ==> FirstComment(s + t, 0) == FirstComment(s, 0)
    ensures FirstComment(s, 0) == |s| ==> FirstComment(s + t, 0) >= |s|
  {
    forall i | 0 <= i < |s| ensures CommentAt(s + t, i) <==> CommentAt(s, i) { QuoteOfPrefix(s, t, i); }
  }

  lemma {:induction false} TrimStartAppend(a: string, b: string)
    requires TrimStart(a) != ""
    ensures TrimStart(a + b) == TrimStart(a) + b
  {
    if IsSpace(a[0]) {
      assert (a + b)[1..] == a[1..] + b;
      TrimStartAppend(a[1..], b);
    }
  }

  lemma {:induction false} TrimEndAppend(a: string, blank: string)
    requires AllSpace(blank)
    ensures TrimEnd(a + blank) == TrimEnd(a)
  {
    if blank == "" {
      assert a + blank == a;
    } else {
      assert (a + blank)[..|a + blank| - 1] == a + blank[..|blank| - 1];
      TrimEndAppend(a, blank[..|blank| - 1]);
    }
  }

  lemma {:induction false} TrimEndSplit(s: string) returns (blank: string)
    ensures s == TrimEnd(s) + blank && AllSpace(blank)
    ensures TrimEnd(s) != "" ==> !IsSpace(TrimEnd(s)[|TrimEnd(s)| - 1])
  {
    blank := "";
    if s != "" && IsSpace(s[|s| - 1]) {
      blank := TrimEndSplit(s[..|s| - 1]);
      blank := blank + [s[|s| - 1]];
    }
  }

  lemma {:induction false} TrimStartBlank(s: string)
    ensures TrimStart(s) == "" <==> AllSpace(s)
    ensures TrimStart(s) != "" ==> !IsSpace(TrimStart(s)[0])
  {
    if s != "" && IsSpace(s[0]) {
      TrimStartBlank(s[1..]);
      assert s == [s[0]] + s[1..];
    }
  }

  lemma TrimOfTrimEnd(v: string)
    ensures Trim(TrimEnd(v)) == Trim(v)
  {
    var e := TrimEnd(v);
    var blank := TrimEndSplit(v);
    TrimStartBlank(e);
    if TrimStart(e) == "" {
      assert e == "";
      TrimStartBlank(v);
    } else {
      TrimStartAppend(e, blank);
      TrimEndAppend(TrimStart(e), blank);
    }
  }

  lemma TrimAppend(v: string, blank: string)
    requires AllSpace(blank)
    ensures Trim(v + blank) == Trim(v)
  {
    TrimEndAppend(v, blank);
    TrimOfTrimEnd(v);
    TrimOfTrimEnd(v + blank);
  }

  // ---- a trailing comment does not change a value -----------------------

  /** Characters other than quotes and `#` leave the scan where it was. */
  lemma {:induction false} PlainTail(v: string, tail: string, k: nat)
    requires k <= |tail| && forall i :: 0 <= i < |tail| ==> !IsQuote(tail[i])
    ensures QuoteAt(v + tail, |v| + k) == QuoteAt(v, |v|)
  {
    if k == 0 {
      QuoteOfPrefix(v, tail, |v|);
    } else {
      PlainTail(v, tail, k - 1);
    }
  }

  lemma BlankTail(v: string, blank: string)
    requires AllSpace(blank)
    ensures Normalize(v + blank) == Normalize(v)
    ensures EndsOutside(v) ==> EndsOutside(v + blank)
  {
    CommentInPrefix(v, blank);
    PlainTail(v, blank, |blank|);
    var i := FirstComment(v, 0);
    if i < |v| {
      assert (v + blank)[..i] == v[..i];
    } else {
      TrimAppend(v, blank);
    }
  }

  /** A trailing comment. */
  function Comment(c: string): string { " #" + c }

  lemma CommentFound(v: string, c: string)
    requires EndsOutside(v) && FirstComment(v, 0) == |v|
    ensures FirstComment(v + Comment(c), 0) == |v| + 1
  {
    var w := v + Comment(c);
    CommentInPrefix(v, Comment(c));
    QuoteOfPrefix(v, Comment(c), |v|);
    assert w[|v|] == ' ' && w[|v| + 1] == '#';
    assert QuoteAt(w, |v| + 1) == StepQuote(QuoteAt(w, |v|), ' ') == None;
    assert CommentAt(w, |v| + 1) && !CommentAt(w, |v|);
  }

  lemma CommentIgnored(v: string, c: string)
    requires EndsOutside(v)
    ensures Normalize(v + Comment(c)) == Normalize(v)
  {
    var w, i := v + Comment(c), FirstComment(v, 0);
    CommentInPrefix(v, Comment(c));
    if i < |v| {
      assert w[..i] == v[..i];
    } else {
      CommentFound(v, c);
      assert w[..|v| + 1] == v + " ";
      TrimEndAppend(v, " ");
      TrimOfTrimEnd(v);
    }
  }

  lemma Regroup(a: string, b: string, c: string)
    ensures a + (b + c) == a + b + c
  {}

  lemma BlankCommentIgnored(v: string, blank: string, c: string)
    requires AllSpace(blank) && EndsOutside(v)
    ensures Normalize(v + (blank + Comment(c))) == Normalize(v)
  {
    Regroup(v, blank, Comment(c));
    BlankTail(v, blank);
    CommentIgnored(v + blank, c);
  }

  /** A tail without slashes cannot complete a scheme. */
  lemma {:induction false} AfterSchemeTail(v: string, tail: string)
    requires forall i :: 0 <= i < |tail| ==> tail[i] != '/'
    ensures AfterScheme(v + tail) == AfterScheme(v) + tail
  {
    if tail == "" {
      assert v + tail == v;
    } else {
      var w, k := v + tail, |tail| - 1;
      assert w[..|w| - 1] == v + tail[..k] && w[|w| - 1] == tail[k];
      AfterSchemeTail(v, tail[..k]);
    }
  }

  lemma NoCommentInQuotes(v: string, tail: string)
    requires !EndsOutside(v) && (tail == " #" || tail == " ##")
    ensures StripComment(v + tail) == v + tail
  {
    var w := v + tail;
    CommentInPrefix(v, tail);
    forall i | |v| <= i < |w| ensures !CommentAt(w, i) { PlainTail(v, tail, i - |v|); }
  }

  lemma HashStaysTrimmed(x: string, tail: string)
    requires x != "" && !IsSpace(x[0]) && (tail == " #" || tail == " ##")
    ensures Trim(x + tail) == x + tail && Unquote(x + tail) == x + tail
  {
    var w := x + tail;
    assert w[0] == x[0] && w[|w| - 1] == '#';
    assert TrimStart(w) == w;
  }

  lemma {:induction false} SomeQuote(v: string)
    requires QuoteAt(v, |v|).Some?
    ensures !AllSpace(v)
  {
    if AllSpace(v) {
      assert "" + v == v;
      PlainTail("", v, |v|);
    }
  }

  /** Inside an open quote the `#` is part of the value. */
  lemma HashKept(v: string, tail: string)
    requires !EndsOutside(v) && (tail == " #" || tail == " ##")
    ensures Normalize(v + tail) == Some(AfterScheme(TrimStart(v)) + tail)
  {
    var x := TrimStart(v);
    NoCommentInQuotes(v, tail);
    SomeQuote(v);
    TrimStartBlank(v);
    TrimStartAppend(v, tail);
    HashStaysTrimmed(x, tail);
    assert TrimEnd(x + tail) == x + tail;
    AfterSchemeTail(x, tail);
  }

  /** Appending ` # comment` never changes a value exactly when its scan ends
      outside quotes. */
  lemma CommentIgnoredExactly(v: string)
    ensures (forall c :: Normalize(v + Comment(c)) == Normalize(v)) <==> EndsOutside(v)
  {
    if EndsOutside(v) {
      forall c ensures Normalize(v + Comment(c)) == Normalize(v) { CommentIgnored(v, c); }
    } else {
      HashKept(v, " #");
      HashKept(v, " ##");
      assert Comment("") == " #" && Comment("#") == " ##";
      assert Normalize(v + Comment("")) != Normalize(v + Comment("#"));
    }
  }

  /** Where no comment has begun and no quote is open, a `#` begins one exactly after
      a blank, a tab or a closing quote; after anything else, as in `a#b`, it is part
      of the value. */
  lemma HashBeginsCommentExactly(v: string, c: string)
    requires v != "" && FirstComment(v, 0) == |v| && QuoteAt(v, |v|).None?
    ensures FirstComment(v + ("#" + c), 0) == |v|
            <==> var last := v[|v| - 1]; last == ' ' || last == '\t' || last == '"' || last == '\''
  {
    var w := v + ("#" + c);
    CommentInPrefix(v, "#" + c);
    QuoteOfPrefix(v, "#" + c, |v|);
    assert w[|v|] == '#' && w[|v| - 1] == v[|v| - 1];
    assert CommentAt(w, |v|) <==> v[|v| - 1] == ' ' || v[|v| - 1] == '\t' || IsQuote(v[|v| - 1]);
  }

  // ---- the forms a location is written in -------------------------------

  /** Everything up to and including the last scheme separator is dropped. */
  lemma {:induction false} SchemeDropped(scheme: string, path: string)
    requires forall i :: 0 <= i <= |path| ==> !EndsInScheme(path[..i])
    ensures AfterScheme(scheme + "://" + path) == path
  {
    var v := scheme + "://" + path;
    if path == "" {
      assert v == scheme + "://";
    } else {
      var k := |path| - 1;
      assert v[..|v| - 1] == scheme + "://" + path[..k] && v[|v| - 1] == path[k];
      assert !EndsInScheme(v) by { assert !EndsInScheme(path[..k + 1]); }
      forall i | 0 <= i <= k ensures !EndsInScheme(path[..k][..i]) { assert path[..k][..i] == path[..i]; }
      SchemeDropped(scheme, path[..k]);
    }
  }

  function Quoted(q: char, body: string): string { " " + ([q] + body + [q]) }

  lemma {:induction false} QuoteStaysOpen(q: char, body: string, k: nat)
    requires IsQuote(q) && q !in body && 2 <= k <= |body| + 2
    ensures QuoteAt(" " + [q] + body, k) == Some(q)
  {
    var v := " " + [q] + body;
    if k == 2 {
      assert QuoteAt(v, 1) == None;
    } else {
      QuoteStaysOpen(q, body, k - 1);
      assert v[k - 1] == body[k - 3];
    }
  }

  lemma QuotedHasNoComment(q: char, body: string)
    requires IsQuote(q) && q !in body
    ensures StripComment(Quoted(q, body)) == Quoted(q, body)
  {
    var open, v := " " + [q] + body, Quoted(q, body);
    assert v == open + [q];
    forall i | 0 <= i < |v| ensures !CommentAt(v, i) {
      if 2 <= i {
        QuoteStaysOpen(q, body, i);
        QuoteOfPrefix(open, [q], i);
      }
    }
  }

  lemma QuotedTrimmed(q: char, url: string)
    requires IsQuote(q) && url != "" && !IsSpace(url[0]) && !IsSpace(url[|url| - 1])
    ensures Trim(Unquote(Trim(Quoted(q, url)))) == url
  {
    var v, quoted := Quoted(q, url), [q] + url + [q];
    assert v[0] == ' ' && v[1..] == quoted && quoted[0] == q && quoted[|quoted| - 1] == q;
    assert TrimStart(v) == TrimStart(quoted) == quoted && TrimEnd(quoted) == quoted;
    assert quoted[1..|quoted| - 1] == url;
    assert TrimStart(url) == url && TrimEnd(url) == url;
  }

  /** A quoted URL stands for its path, in double quotes or in single ones:
      `location: "file:///x"` is `/x`. */
  lemma QuotedUrlNormalized(q: char, scheme: string, path: string)
    requires IsQuote(q) && scheme != "" && path != "" && q !in scheme + path
    requires !IsSpace(scheme[0]) && !IsSpace(path[|path| - 1])
    requires forall i :: 0 <= i <= |path| ==> !EndsInScheme(path[..i])
    ensures Normalize(Quoted(q, scheme + "://" + path)) == Some(path)
  {
    var url := scheme + "://" + path;
    assert q !in url;
    QuotedHasNoComment(q, url);
    QuotedTrimmed(q, url);
    SchemeDropped(scheme, path);
  }

  /** So does a bare one: without quotes and without a `#`. */
  lemma BareUrlNormalized(scheme: string, path: string)
    requires scheme != "" && path != "" && !IsSpace(scheme[0]) && !IsSpace(path[|path| - 1])
    requires forall c :: c in scheme + path ==> !IsQuote(c) && c != '#'
    requires forall i :: 0 <= i <= |path| ==> !EndsInScheme(path[..i])
    ensures Normalize(" " + (scheme + "://" + path)) == Some(path)
  {
    var url := scheme + "://" + path;
    var v := " " + url;
    forall c | c in url ensures !IsQuote(c) && c != '#' { assert c in scheme + path || c in "://"; }
    forall i | 0 <= i < |v| ensures !CommentAt(v, i) {
      if i > 0 { assert v[i] == url[i - 1] && url[i - 1] in url; }
    }
    assert url[0] in url;
    assert v[0] == ' ' && v[1..] == url && url[0] == scheme[0] && url[|url| - 1] == path[|path| - 1];
    assert TrimStart(v) == TrimStart(url) == url && TrimEnd(url) == url && Unquote(url) == url;
    SchemeDropped(scheme, path);
  }
}
