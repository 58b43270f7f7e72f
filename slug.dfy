/**
 * The download file name of a card: the title lower-cased, with every maximal run of
 * white space replaced by one hyphen (`title.toLowerCase().replace(/\s+/g, "-")`),
 * followed by "-movie-card.png".
 */
module Slug {
  import opened Options
  import opened Js

  /** `toLowerCase` on one character (ASCII letters only). */
  function LowerChar(c: char): char {
    if 'A' <= c <= 'Z' then (c as int + 32) as char else c
  }

  /** `toLowerCase` on a string, character by character. */
  function Lower(s: string): (r: string)
    ensures |r| == |s|
  {
    seq(|s|, i requires 0 <= i < |s| => LowerChar(s[i]))
  }

  predicate IsLower(s: string) {
    forall i :: 0 <= i < |s| ==> LowerChar(s[i]) == s[i]
  }

  predicate NoWhitespace(s: string) {
    forall i :: 0 <= i < |s| ==> !IsWhitespace(s[i])
  }

  predicate AllWhitespace(s: string) {
    forall i :: 0 <= i < |s| ==> IsWhitespace(s[i])
  }

  /** No two hyphens stand next to each other. */
  predicate NoDoubleHyphen(s: string) {
    forall i :: 0 <= i < |s| - 1 ==> !(s[i] == '-' && s[i + 1] == '-')
  }

  /**
   * The scan behind `s.replace(/\s+/g, "-")`: a white-space character that starts a run
   * (`inRun` false) becomes a hyphen, one that continues a run is dropped, and every other
   * character is kept.
   */
  function Collapse(s: string, inRun: bool): (r: string)
    ensures |r| <= |s|
    decreases |s|
  {
    if s == [] then []
    else if IsWhitespace(s[0]) then (if inRun then [] else ['-']) + Collapse(s[1..], true)
    else [s[0]] + Collapse(s[1..], false)
  }

  /** `s.replace(/\s+/g, "-")`: every maximal run of white space becomes one hyphen. */
  function ReplaceRuns(s: string): string {
    Collapse(s, false)
  }

  /** Whether a scan that has read `x`, having started with `inRun`, is inside a run. */
  function EndsInRun(x: string, inRun: bool): bool {
    if x == [] then inRun else IsWhitespace(x[|x| - 1])
  }

  /** The title's slug. */
  function Slugify(title: string): string {
    ReplaceRuns(Lower(title))
  }

  const FilenameSuffix := "-movie-card.png"

  /** The file name, or `None` when `title` is not a string and `toLowerCase` throws. */
  function DownloadFilename(title: JsValue): Option<string> {
    match title
    case Str(s) => Some(Slugify(s) + FilenameSuffix)
    case _ => None
  }

  /** The `Content-Disposition` header value naming the file. */
  function ContentDisposition(filename: string): string {
    "attachment; filename=\"" + filename + "\""
  }

  /**
   * The characters Node accepts in a header value (`setHeader` throws `ERR_INVALID_CHAR`
   * on any other): tab, printable ASCII and the code points U+0080 to U+00FF.
   */
  predicate IsHeaderChar(c: char) {
    c == '\t' || (' ' <= c <= '~') || ('\U{80}' <= c <= '\U{FF}')
  }

  predicate IsHeaderValue(v: string) {
    forall i :: 0 <= i < |v| ==> IsHeaderChar(v[i])
  }

  /** Text whose characters other than white space all pass Node's header check. */
  predicate IsHeaderSafeText(t: string) {
    forall i :: 0 <= i < |t| ==> IsWhitespace(t[i]) || IsHeaderChar(t[i])
  }

  /** `w0 + r0 + w1 + ... + r(k-1) + wk`: words separated by the given runs. */
  function Interleave(words: seq<string>, runs: seq<string>): string
    requires |words| == |runs| + 1
    decreases |runs|
  {
    if runs == [] then words[0] else words[0] + runs[0] + Interleave(words[1..], runs[1..])
  }

  /** `w0 + "-" + w1 + ... + "-" + wk`. */
  function HyphenJoin(words: seq<string>): string
    requires |words| >= 1
    decreases |words|
  {
    if |words| == 1 then words[0] else words[0] + "-" + HyphenJoin(words[1..])
  }

  // ---------------------------------------------------------------------------
  // Properties

  /** The scan holds no white space, and only hyphens and characters of its input. */
  lemma {:induction false} CollapseResult(s: string, inRun: bool)
    ensures NoWhitespace(Collapse(s, inRun))
    ensures forall i :: 0 <= i < |Collapse(s, inRun)| ==>
      Collapse(s, inRun)[i] == '-' || Collapse(s, inRun)[i] in s
    decreases |s|
  {
    if s != [] {
      var r := Collapse(s, inRun);
      var f := IsWhitespace(s[0]);
      var rest := Collapse(s[1..], f);
      CollapseResult(s[1..], f);
      var k := |r| - |rest|;
      assert r[k..] == rest;
      assert forall i :: k <= i < |r| ==> r[i] == rest[i - k];
      assert forall c :: c in s[1..] ==> c in s;
    }
  }

  /**
   * The scan of a concatenation is the scan of the first part followed by the scan of
   * the second, resumed in the state the first part left it in.
   */
  lemma {:induction false} CollapseAppend(x: string, y: string, inRun: bool)
    ensures Collapse(x + y, inRun) == Collapse(x, inRun) + Collapse(y, EndsInRun(x, inRun))
    decreases |x|
  {
    if x == [] {
      assert x + y == y;
    } else {
      assert (x + y)[0] == x[0] && (x + y)[1..] == x[1..] + y;
      CollapseAppend(x[1..], y, IsWhitespace(x[0]));
      assert EndsInRun(x[1..], IsWhitespace(x[0])) == EndsInRun(x, inRun);
    }
  }

  /** A string without white space is its own replacement. */
  lemma {:induction false} CollapseNoWhitespace(s: string, inRun: bool)
    requires NoWhitespace(s)
    ensures Collapse(s, inRun) == s
    decreases |s|
  {
    if s != [] {
      CollapseNoWhitespace(s[1..], false);
    }
  }

  /** A run of white space becomes one hyphen where it starts a run and nothing inside one. */
  lemma {:induction false} CollapseRun(s: string, inRun: bool)
    requires s != [] && AllWhitespace(s)
    ensures Collapse(s, inRun) == if inRun then "" else "-"
    decreases |s|
  {
    if |s| > 1 {
      CollapseRun(s[1..], true);
    }
  }

  /**
   * `ReplaceRuns` on a concatenation that does not cut a run of white space in two is the
   * concatenation of the parts' replacements: with the two lemmas above this fixes the
   * result on every string, one hyphen per maximal run.
   */
  lemma ReplaceRunsAppend(x: string, y: string)
    requires x == [] || y == [] || !IsWhitespace(x[|x| - 1]) || !IsWhitespace(y[0])
    ensures ReplaceRuns(x + y) == ReplaceRuns(x) + ReplaceRuns(y)
  {
    CollapseAppend(x, y, false);
    if y != [] && EndsInRun(x, false) {
      assert Collapse(y, true) == Collapse(y, false);
    }
  }

  /** After a character that is not white space the scan is no longer in a run. */
  lemma CollapseRestart(t: string)
    requires t == [] || !IsWhitespace(t[0])
    ensures Collapse(t, true) == Collapse(t, false)
  {
  }

  /** Where the words begin, the interleaving begins: with the first word, if it is not empty. */
  lemma InterleaveHead(words: seq<string>, runs: seq<string>)
    requires |words| == |runs| + 1 && words[0] != []
    ensures Interleave(words, runs) != [] && Interleave(words, runs)[0] == words[0][0]
  {
  }

  /**
   * Words without white space separated by runs of white space come out joined by single
   * hyphens, whatever the runs hold, and hyphens inside the words are kept. Only the first
   * and the last word may be empty (leading or trailing white space).
   */
  lemma {:induction false} ReplaceRunsOfWords(words: seq<string>, runs: seq<string>)
    requires |words| == |runs| + 1
    requires forall i :: 0 <= i < |words| ==> NoWhitespace(words[i])
    requires forall i :: 0 < i < |words| - 1 ==> words[i] != []
    requires forall j :: 0 <= j < |runs| ==> runs[j] != [] && AllWhitespace(runs[j])
    ensures ReplaceRuns(Interleave(words, runs)) == HyphenJoin(words)
    decreases |runs|
  {
    if runs == [] {
      CollapseNoWhitespace(words[0], false);
    } else {
      var w, r := words[0], runs[0];
      var t := Interleave(words[1..], runs[1..]);
      assert Interleave(words, runs) == w + (r + t);
      CollapseAppend(w, r + t, false);
      CollapseNoWhitespace(w, false);
      assert !EndsInRun(w, false);
      CollapseAppend(r, t, false);
      CollapseRun(r, false);
      assert EndsInRun(r, false);
      if words[1] != [] {
        InterleaveHead(words[1..], runs[1..]);
      }
      CollapseRestart(t);
      ReplaceRunsOfWords(words[1..], runs[1..]);
    }
  }

  /** Hyphens that replace white space never touch: a title without hyphens gets no "--". */
  lemma {:induction false} CollapseNoDoubleHyphen(s: string, inRun: bool)
    requires '-' !in s
    ensures NoDoubleHyphen(Collapse(s, inRun))
    ensures inRun ==> Collapse(s, inRun) == [] || Collapse(s, inRun)[0] != '-'
    decreases |s|
  {
    if s != [] {
      var f := IsWhitespace(s[0]);
      assert '-' !in s[1..];
      CollapseNoDoubleHyphen(s[1..], f);
      var rest := Collapse(s[1..], f);
      var r := Collapse(s, inRun);
      assert r == (if f then (if inRun then [] else ['-']) else [s[0]]) + rest;
      assert f ==> rest == [] || rest[0] != '-';
    }
  }

  lemma ReplaceRunsNoDoubleHyphen(s: string)
    requires '-' !in s
    ensures NoDoubleHyphen(ReplaceRuns(s))
  {
    CollapseNoDoubleHyphen(s, false);
  }

  /** The scan keeps every character that is not white space. */
  lemma {:induction false} CollapseKeeps(s: string, inRun: bool, c: char)
    requires c in s && !IsWhitespace(c)
    ensures c in Collapse(s, inRun)
    decreases |s|
  {
    if s[0] != c {
      CollapseKeeps(s[1..], IsWhitespace(s[0]), c);
    }
  }

  lemma HeaderValueAppend(a: string, b: string)
    ensures IsHeaderValue(a + b) <==> IsHeaderValue(a) && IsHeaderValue(b)
  {
    if IsHeaderValue(a + b) {
      assert forall i :: 0 <= i < |a| ==> a[i] == (a + b)[i];
      assert forall i :: 0 <= i < |b| ==> b[i] == (a + b)[|a| + i];
    }
  }

  /** The fixed parts of the header value pass the check, so only the slug decides. */
  lemma DispositionAccepted(slug: string)
    ensures IsHeaderValue(ContentDisposition(slug + FilenameSuffix)) <==> IsHeaderValue(slug)
  {
    var pre, post := "attachment; filename=\"", FilenameSuffix + "\"";
    assert ContentDisposition(slug + FilenameSuffix) == pre + (slug + post);
    assert IsHeaderValue(pre) by { assert forall i :: 0 <= i < |pre| ==> pre[i] in pre; }
    assert IsHeaderValue(post) by { assert forall i :: 0 <= i < |post| ==> post[i] in post; }
    HeaderValueAppend(pre, slug + post);
    HeaderValueAppend(slug, post);
  }

  /**
   * The replacement passes the header check exactly when every character of its input
   * other than white space does: white space becomes hyphens and the rest is kept.
   */
  lemma ReplaceRunsAccepted(s: string)
    ensures IsHeaderValue(ReplaceRuns(s)) <==> IsHeaderSafeText(s)
  {
    var r := ReplaceRuns(s);
    CollapseResult(s, false);
    if IsHeaderSafeText(s) {
      forall i | 0 <= i < |r| ensures IsHeaderChar(r[i]) {
        if r[i] != '-' {
          var j :| 0 <= j < |s| && s[j] == r[i];
        }
      }
    } else {
      var j :| 0 <= j < |s| && !IsWhitespace(s[j]) && !IsHeaderChar(s[j]);
      CollapseKeeps(s, false, s[j]);
      var k :| 0 <= k < |r| && r[k] == s[j];
    }
  }

  /**
   * Node accepts the `Content-Disposition` value of a title's file name exactly when every
   * character of the lower-cased title other than white space passes its header check.
   */
  lemma ContentDispositionAccepted(title: string)
    ensures IsHeaderValue(ContentDisposition(Slugify(title) + FilenameSuffix))
        <==> IsHeaderSafeText(Lower(title))
  {
    DispositionAccepted(Slugify(title));
    ReplaceRunsAccepted(Lower(title));
  }

  lemma LowerIsLower(s: string)
    ensures IsLower(Lower(s))
  {
  }

  /** The slug of a slug is itself. */
  lemma SlugifyIdempotent(title: string)
    ensures Slugify(Slugify(title)) == Slugify(title)
  {
    var r := Slugify(title);
    LowerIsLower(title);
    CollapseResult(Lower(title), false);
    assert Lower(r) == r by {
      forall i | 0 <= i < |r| ensures LowerChar(r[i]) == r[i] {
        if r[i] != '-' {
          var j :| 0 <= j < |Lower(title)| && Lower(title)[j] == r[i];
        }
      }
    }
    CollapseNoWhitespace(r, false);
  }

  /**
   * A string title gives its slug followed by "-movie-card.png"; the slug part holds no
   * white space. Any other title has no file name.
   */
  lemma DownloadFilenameShape(title: JsValue)
    ensures DownloadFilename(title).Some? <==> title.Str?
    ensures title.Str? ==> var n := DownloadFilename(title).value;
      && |n| >= |FilenameSuffix| && n[|n| - |FilenameSuffix|..] == FilenameSuffix
      && n[..|n| - |FilenameSuffix|] == Slugify(title.s)
      && NoWhitespace(n[..|n| - |FilenameSuffix|])
  {
    if title.Str? {
      var n := DownloadFilename(title).value;
      assert n[..|n| - |FilenameSuffix|] == Slugify(title.s);
      CollapseResult(Lower(title.s), false);
    }
  }

  /** Two words separated by one space are joined by one hyphen. */
  lemma TwoWordSlug(w1: string, w2: string)
    requires NoWhitespace(w1) && NoWhitespace(w2)
    ensures ReplaceRuns(w1 + " " + w2) == w1 + "-" + w2
  {
    assert w1 + " " + w2 == w1 + (" " + w2);
    CollapseAppend(w1, " " + w2, false);
    CollapseNoWhitespace(w1, false);
    assert (" " + w2)[0] == ' ' && (" " + w2)[1..] == w2;
    assert !EndsInRun(w1, false);
    CollapseNoWhitespace(w2, true);
  }

  /**
   * The default title the handler writes lower-cases to two words, so by `TwoWordSlug` its file
   * name is "movie-title-movie-card.png".
   */
  lemma DefaultTitleLower()
    ensures Lower("Movie Title") == "movie" + " " + "title"
  {
    var low := Lower("Movie Title");
    forall i | 0 <= i < 11 ensures low[i] == "movie title"[i] {
      assert low[i] == LowerChar("Movie Title"[i]);
    }
  }

  /**
   * The slug of the default title. The literals are bound to parameters so that the scan
   * is argued through `TwoWordSlug` on names instead of being unfolded character by
   * character on the literal, which the verifier cannot afford; `DefaultTitleFilename`
   * states the result on the literals themselves.
   */
  lemma DefaultTitleSlug(t: string, w1: string, w2: string)
    requires t == "Movie Title" && w1 == "movie" && w2 == "title"
    ensures Slugify(t) == w1 + "-" + w2
  {
    DefaultTitleLower();
    assert Lower(t) == w1 + " " + w2;
    assert NoWhitespace(w1) by { assert forall i :: 0 <= i < |w1| ==> w1[i] in "movie"; }
    assert NoWhitespace(w2) by { assert forall i :: 0 <= i < |w2| ==> w2[i] in "title"; }
    TwoWordSlug(w1, w2);
  }

  /** The default title the handler writes downloads as "movie-title-movie-card.png". */
  lemma DefaultTitleFilename()
    ensures Slugify("Movie Title") == "movie-title"
    ensures DownloadFilename(Str("Movie Title")) == Some("movie-title" + FilenameSuffix)
  {
    DefaultTitleSlug("Movie Title", "movie", "title");
  }
}
