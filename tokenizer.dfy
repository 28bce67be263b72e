/** The tag tokenizer `tags.trim().split(/\s+/)`: strip leading and trailing
    white space, then cut the rest at every maximal run of white space.
    Like the ECMAScript algorithm, `SplitFrom` walks the string with a start
    index `p` and the index `q` of the next white-space run. */
module Tokenizer {

  /** The characters ECMAScript's `\s` matches and `String.prototype.trim`
      removes: the WhiteSpace and LineTerminator code points. Of the ASCII
      characters these are the blank and tab, line feed, vertical tab, form
      feed and carriage return. */
  predicate IsSpace(c: char)
    ensures (c as int) < 0x80 ==> (IsSpace(c) <==> c == ' ' || '\t' <= c <= '\r')
  {
    var n := c as int;
    n == 0x09 || n == 0x0A || n == 0x0B || n == 0x0C || n == 0x0D || n == 0x20
    || n == 0xA0 || n == 0x1680 || (0x2000 <= n <= 0x200A)
    || n == 0x2028 || n == 0x2029 || n == 0x202F || n == 0x205F
    || n == 0x3000 || n == 0xFEFF
  }

  predicate NoSpace(s: string) {
    forall k :: 0 <= k < |s| ==> !IsSpace(s[k])
  }

  predicate AllSpace(s: string) {
    forall k :: 0 <= k < |s| ==> IsSpace(s[k])
  }

  /** The first index at or after `p` that holds white space, or `|s|`. */
  function NextSpace(s: string, p: nat): (q: nat)
    requires p <= |s|
    ensures p <= q <= |s|
    ensures forall k :: p <= k < q ==> !IsSpace(s[k])
    ensures q < |s| ==> IsSpace(s[q])
    decreases |s| - p
  {
    if p == |s| || IsSpace(s[p]) then p else NextSpace(s, p + 1)
  }

  /** The first index at or after `p` that does not hold white space, or
      `|s|`: the end of the run of white space starting at `p`. */
  function SkipSpaces(s: string, p: nat): (q: nat)
    requires p <= |s|
    ensures p <= q <= |s|
    ensures forall k :: p <= k < q ==> IsSpace(s[k])
    ensures q < |s| ==> !IsSpace(s[q])
    decreases |s| - p
  {
    if p < |s| && IsSpace(s[p]) then SkipSpaces(s, p + 1) else p
  }

  /** The end of `s[lo..hi]` once its trailing white space is dropped. */
  function SkipTrailingSpaces(s: string, lo: nat, hi: nat): (e: nat)
    requires lo <= hi <= |s|
    ensures lo <= e <= hi
    ensures forall k :: e <= k < hi ==> IsSpace(s[k])
    ensures e > lo ==> !IsSpace(s[e - 1])
    decreases hi
  {
    if hi > lo && IsSpace(s[hi - 1]) then SkipTrailingSpaces(s, lo, hi - 1) else hi
  }

  /** `String.prototype.trim`: `s` without its leading and trailing runs of
      white space. */
  function Trim(s: string): (r: string)
    ensures |r| <= |s|
    ensures r == [] || (!IsSpace(r[0]) && !IsSpace(r[|r| - 1]))
    ensures r == [] <==> AllSpace(s)
  {
    var a := SkipSpaces(s, 0);
    var e := SkipTrailingSpaces(s, a, |s|);
    assert a < |s| ==> e > a;
    s[a..e]
  }

  /** `s.split(/\s+/)` from index `p` on: the piece up to the next run of
      white space, then the pieces after that run. */
  function SplitFrom(s: string, p: nat): (r: seq<string>)
    requires p <= |s|
    ensures |r| >= 1
    ensures forall t :: t in r ==> NoSpace(t)
    decreases |s| - p
  {
    var q := NextSpace(s, p);
    NoSpaceSlice(s, p, q);
    if q == |s| then [s[p..]]
    else [s[p..q]] + SplitFrom(s, SkipSpaces(s, q))
  }

  /** `s.split(/\s+/)`: the pieces of `s` between maximal runs of white
      space, in order. A leading or trailing run yields an empty first or
      last piece, and the empty string splits into `[""]`. */
  function Split(s: string): (r: seq<string>)
    ensures |r| >= 1
    ensures forall t :: t in r ==> NoSpace(t)
    ensures s == [] ==> r == [""]
    ensures NoSpace(s) ==> r == [s]
  {
    if NoSpace(s) then NextSpaceAt(s, 0, |s|); SplitFrom(s, 0) else SplitFrom(s, 0)
  }

  /** The tag list the router builds from a tags string. */
  function Tokenize(s: string): (r: seq<string>)
    ensures |r| >= 1
    ensures forall t :: t in r ==> NoSpace(t)
    ensures AllSpace(s) ==> r == [""]
  {
    Split(Trim(s))
  }

  /** All characters of `s` except white space, in order. */
  function RemoveSpaces(s: string): string {
    if s == [] then [] else (if IsSpace(s[0]) then [] else [s[0]]) + RemoveSpaces(s[1..])
  }

  /** The pieces of `ts` glued together. */
  function Concat(ts: seq<string>): string {
    if ts == [] then [] else ts[0] + Concat(ts[1..])
  }

  /** The pieces of `ts` glued together with one blank between neighbours. */
  function Join(ts: seq<string>): string
    requires |ts| >= 1
  {
    if |ts| == 1 then ts[0] else ts[0] + " " + Join(ts[1..])
  }

  // ---------------------------------------------------------------------
  // Slices.

  lemma NoSpaceSlice(s: string, i: nat, j: nat)
    requires i <= j <= |s|
    requires forall k :: i <= k < j ==> !IsSpace(s[k])
    ensures NoSpace(s[i..j]) && (j == |s| ==> NoSpace(s[i..]))
  {
    assert forall k :: 0 <= k < j - i ==> s[i..j][k] == s[i + k];
  }

  lemma AllSpaceSlice(s: string, i: nat, j: nat)
    requires i <= j <= |s|
    requires forall k :: i <= k < j ==> IsSpace(s[k])
    ensures AllSpace(s[i..j])
  {
    assert forall k :: 0 <= k < j - i ==> s[i..j][k] == s[i + k];
  }

  lemma SliceParts(s: string, p: nat, q: nat, j: nat)
    requires p <= q <= j <= |s|
    ensures s[p..] == s[p..q] + (s[q..j] + s[j..])
  {
  }

  // ---------------------------------------------------------------------
  // Shape of the result.

  /** Splitting from a non-white-space character, in a string that does not
      end in white space, gives only non-empty pieces. */
  lemma {:induction false} SplitFromPiecesNonEmpty(s: string, p: nat)
    requires p < |s| && !IsSpace(s[p]) && !IsSpace(s[|s| - 1])
    ensures forall t :: t in SplitFrom(s, p) ==> t != ""
    decreases |s| - p
  {
    var q := NextSpace(s, p);
    if q < |s| {
      var j := SkipSpaces(s, q);
      assert j < |s|;
      SplitFromPiecesNonEmpty(s, j);
      assert SplitFrom(s, p) == [s[p..q]] + SplitFrom(s, j);
    }
  }

  /** The tokenizer always returns at least one token and no token holds
      white space. A blank input (empty or only white space) gives exactly
      `[""]`; any other input gives only non-empty tokens. */
  lemma TokenizeShape(s: string)
    ensures |Tokenize(s)| >= 1
    ensures forall t :: t in Tokenize(s) ==> NoSpace(t)
    ensures AllSpace(s) ==> Tokenize(s) == [""]
    ensures !AllSpace(s) ==> forall t :: t in Tokenize(s) ==> t != ""
    ensures "" in Tokenize(s) <==> AllSpace(s)
  {
    if !AllSpace(s) {
      SplitFromPiecesNonEmpty(Trim(s), 0);
    }
  }

  // ---------------------------------------------------------------------
  // The tokens are exactly the input's non-white-space characters.

  lemma {:induction false} RemoveSpacesAppend(a: string, b: string)
    ensures RemoveSpaces(a + b) == RemoveSpaces(a) + RemoveSpaces(b)
    decreases |a|
  {
    if a == [] {
      assert a + b == b;
    } else {
      assert (a + b)[1..] == a[1..] + b;
      RemoveSpacesAppend(a[1..], b);
    }
  }

  lemma {:induction false} RemoveSpacesOfNoSpace(a: string)
    requires NoSpace(a)
    ensures RemoveSpaces(a) == a
    decreases |a|
  {
    if a != [] {
      RemoveSpacesOfNoSpace(a[1..]);
    }
  }

  lemma {:induction false} RemoveSpacesOfAllSpace(a: string)
    requires AllSpace(a)
    ensures RemoveSpaces(a) == []
    decreases |a|
  {
    if a != [] {
      RemoveSpacesOfAllSpace(a[1..]);
    }
  }

  /** Removing white space drops a run of white space between two parts. */
  lemma RemoveSpacesDropsRun(a: string, run: string, b: string)
    requires AllSpace(run)
    ensures RemoveSpaces(a + (run + b)) == RemoveSpaces(a) + RemoveSpaces(b)
  {
    RemoveSpacesAppend(a, run + b);
    RemoveSpacesAppend(run, b);
    RemoveSpacesOfAllSpace(run);
  }

  lemma ConcatCons(h: string, t: seq<string>)
    ensures Concat([h] + t) == h + Concat(t)
  {
    assert ([h] + t)[1..] == t;
  }

  /** Gluing the pieces of a split back together gives the input without its
      white space: splitting drops white space and nothing else. */
  lemma {:induction false} SplitFromKeepsText(s: string, p: nat)
    requires p <= |s|
    ensures Concat(SplitFrom(s, p)) == RemoveSpaces(s[p..])
    decreases |s| - p
  {
    var q := NextSpace(s, p);
    NoSpaceSlice(s, p, q);
    if q == |s| {
      RemoveSpacesOfNoSpace(s[p..]);
      ConcatCons(s[p..], []);
    } else {
      var j := SkipSpaces(s, q);
      SplitFromKeepsText(s, j);
      assert SplitFrom(s, p) == [s[p..q]] + SplitFrom(s, j);
      ConcatCons(s[p..q], SplitFrom(s, j));
      SliceParts(s, p, q, j);
      AllSpaceSlice(s, q, j);
      RemoveSpacesDropsRun(s[p..q], s[q..j], s[j..]);
      RemoveSpacesOfNoSpace(s[p..q]);
    }
  }

  /** Removing white space from a text framed by white space removes the
      frame. */
  lemma RemoveSpacesFramed(pre: string, mid: string, post: string)
    requires AllSpace(pre) && AllSpace(post)
    ensures RemoveSpaces(pre + (mid + post)) == RemoveSpaces(mid)
  {
    RemoveSpacesAppend(pre, mid + post);
    RemoveSpacesAppend(mid, post);
    RemoveSpacesOfAllSpace(pre);
    RemoveSpacesOfAllSpace(post);
  }

  /** `s` is its leading white space, its trimmed text and its trailing
      white space. */
  lemma TrimFrame(s: string) returns (pre: string, post: string)
    ensures s == pre + (Trim(s) + post)
    ensures AllSpace(pre) && AllSpace(post)
  {
    var a := SkipSpaces(s, 0);
    var e := SkipTrailingSpaces(s, a, |s|);
    pre, post := s[0..a], s[e..|s|];
    AllSpaceSlice(s, 0, a);
    AllSpaceSlice(s, e, |s|);
    assert s == s[0..a] + (s[a..e] + s[e..|s|]);
  }

  /** Trimming removes white space only. */
  lemma TrimKeepsText(s: string)
    ensures RemoveSpaces(Trim(s)) == RemoveSpaces(s)
  {
    var pre, post := TrimFrame(s);
    RemoveSpacesFramed(pre, Trim(s), post);
  }

  /** The tokens, glued together, are the input's characters other than
      white space, in their original order. */
  lemma TokenizeKeepsText(s: string)
    ensures Concat(Tokenize(s)) == RemoveSpaces(s)
  {
    var t := Trim(s);
    SplitFromKeepsText(t, 0);
    assert t[0..] == t;
    TrimKeepsText(s);
  }

  // ---------------------------------------------------------------------
  // Tokenizing inverts joining with white space.

  predicate IsTag(t: string) {
    t != "" && NoSpace(t)
  }

  predicate AllTags(ts: seq<string>) {
    forall k :: 0 <= k < |ts| ==> IsTag(ts[k])
  }

  /** Each separator is a non-empty run of white space: any mix of blanks,
      tabs, line breaks and the other `\s` characters. */
  predicate AllSeparators(seps: seq<string>) {
    forall k :: 0 <= k < |seps| ==> seps[k] != [] && AllSpace(seps[k])
  }

  /** The pieces of `ts` glued together, with `seps[k]` between `ts[k]` and
      `ts[k + 1]`. */
  function Interleave(ts: seq<string>, seps: seq<string>): string
    requires |ts| >= 1 && |seps| == |ts| - 1
    decreases |ts|
  {
    if |ts| == 1 then ts[0] else ts[0] + (seps[0] + Interleave(ts[1..], seps[1..]))
  }

  lemma AllTagsParts(ts: seq<string>)
    requires |ts| >= 1 && AllTags(ts)
    ensures IsTag(ts[0]) && AllTags(ts[1..])
  {
    assert forall k :: 0 <= k < |ts| - 1 ==> ts[1..][k] == ts[k + 1];
  }

  lemma AllSeparatorsParts(seps: seq<string>)
    requires |seps| >= 1 && AllSeparators(seps)
    ensures seps[0] != [] && AllSpace(seps[0]) && AllSeparators(seps[1..])
  {
    assert forall k :: 0 <= k < |seps| - 1 ==> seps[1..][k] == seps[k + 1];
  }

  lemma InterleaveStart(ts: seq<string>, seps: seq<string>)
    requires |ts| >= 1 && |seps| == |ts| - 1 && AllTags(ts)
    ensures Interleave(ts, seps) != [] && !IsSpace(Interleave(ts, seps)[0])
  {
    assert IsTag(ts[0]);
    assert Interleave(ts, seps)[0] == ts[0][0];
  }

  lemma {:induction false} InterleaveEnd(ts: seq<string>, seps: seq<string>)
    requires |ts| >= 1 && |seps| == |ts| - 1 && AllTags(ts)
    ensures Interleave(ts, seps) != []
    ensures !IsSpace(Interleave(ts, seps)[|Interleave(ts, seps)| - 1])
    decreases |ts|
  {
    AllTagsParts(ts);
    if |ts| > 1 {
      InterleaveEnd(ts[1..], seps[1..]);
    }
  }

  /** The next white space from `p` is at `m` when none comes before it. */
  lemma {:induction false} NextSpaceAt(s: string, p: nat, m: nat)
    requires p <= m <= |s|
    requires forall k :: p <= k < m ==> !IsSpace(s[k])
    requires m < |s| ==> IsSpace(s[m])
    ensures NextSpace(s, p) == m
    decreases m - p
  {
    if p < m {
      NextSpaceAt(s, p + 1, m);
    }
  }

  /** The run of white space from `m` ends at `j` when `s[m..j]` is white
      space and `s[j]` is not. */
  lemma {:induction false} SkipSpacesAt(s: string, m: nat, j: nat)
    requires m <= j <= |s|
    requires forall k :: m <= k < j ==> IsSpace(s[k])
    requires j < |s| ==> !IsSpace(s[j])
    ensures SkipSpaces(s, m) == j
    decreases j - m
  {
    if m < j {
      SkipSpacesAt(s, m + 1, j);
    }
  }

  /** The trailing white space of `s[lo..hi]` starts at `e` when `s[e..hi]`
      is white space and `s[e - 1]` is not. */
  lemma {:induction false} SkipTrailingSpacesAt(s: string, lo: nat, e: nat, hi: nat)
    requires lo <= e <= hi <= |s|
    requires forall k :: e <= k < hi ==> IsSpace(s[k])
    requires e > lo ==> !IsSpace(s[e - 1])
    ensures SkipTrailingSpaces(s, lo, hi) == e
    decreases hi - e
  {
    if e < hi {
      SkipTrailingSpacesAt(s, lo, e, hi - 1);
    }
  }

  /** Where `s[p..]` is `w`, the characters of `s` from `p` on are those of
      `w`. */
  lemma SuffixChars(s: string, p: nat, w: string)
    requires p <= |s| && s[p..] == w
    ensures |s| == p + |w|
    ensures forall k :: p <= k < |s| ==> s[k] == w[k - p]
  {
  }

  /** Where `s[p..]` is a single tag, splitting from `p` gives that tag. */
  lemma SplitFromLastTag(s: string, p: nat, w: string)
    requires p <= |s| && s[p..] == w && IsTag(w)
    ensures SplitFrom(s, p) == [w]
  {
    SuffixChars(s, p, w);
    NextSpaceAt(s, p, |s|);
  }

  /** The layout of `s` from `p` on, where it reads a tag, a run of white
      space and a further text. */
  lemma TagThenRunChars(s: string, p: nat, w: string, run: string, tail: string)
    requires p <= |s| && s[p..] == w + (run + tail) && IsTag(w) && AllSpace(run)
    ensures p + |w| + |run| <= |s|
    ensures forall k :: p <= k < p + |w| ==> !IsSpace(s[k])
    ensures forall k :: p + |w| <= k < p + |w| + |run| ==> IsSpace(s[k])
    ensures tail != [] ==> s[p + |w| + |run|] == tail[0]
    ensures s[p..p + |w|] == w && s[p + |w| + |run|..] == tail
  {
    SuffixChars(s, p, w + (run + tail));
    assert forall k :: p <= k < p + |w| ==> s[k] == w[k - p];
    assert forall k :: p + |w| <= k < p + |w| + |run| ==> s[k] == run[k - p - |w|];
  }

  /** One step of the split: the piece up to the white space at `q`, then
      the pieces from the end `j` of that run. */
  lemma SplitFromStep(s: string, p: nat, q: nat, j: nat)
    requires p <= q < |s| && NextSpace(s, p) == q && SkipSpaces(s, q) == j
    ensures SplitFrom(s, p) == [s[p..q]] + SplitFrom(s, j)
  {
  }

  /** Where `s[p..]` is a tag, a run of white space and a text that starts
      with no white space, splitting from `p` gives that tag and then splits
      from the start of the text. */
  lemma SplitFromTagThenRun(s: string, p: nat, w: string, run: string, tail: string) returns (j: nat)
    requires p <= |s| && s[p..] == w + (run + tail) && IsTag(w)
    requires run != [] && AllSpace(run)
    requires tail != [] && !IsSpace(tail[0])
    ensures j == p + |w| + |run| && j <= |s| && s[j..] == tail
    ensures SplitFrom(s, p) == [w] + SplitFrom(s, j)
  {
    var m := p + |w|;
    j := m + |run|;
    TagThenRunChars(s, p, w, run, tail);
    NextSpaceAt(s, p, m);
    SkipSpacesAt(s, m, j);
    SplitFromStep(s, p, m, j);
  }

  /** An interleaving of two or more tags is the first tag, the first
      separator and the interleaving of the rest, which starts with no white
      space. */
  lemma InterleaveCons(ts: seq<string>, seps: seq<string>)
    requires |ts| >= 2 && |seps| == |ts| - 1 && AllTags(ts) && AllSeparators(seps)
    ensures IsTag(ts[0]) && seps[0] != [] && AllSpace(seps[0])
    ensures Interleave(ts, seps) == ts[0] + (seps[0] + Interleave(ts[1..], seps[1..]))
    ensures Interleave(ts[1..], seps[1..]) != [] && !IsSpace(Interleave(ts[1..], seps[1..])[0])
  {
    AllTagsParts(ts);
    AllSeparatorsParts(seps);
    InterleaveStart(ts[1..], seps[1..]);
  }

  /** The first step of splitting an interleaving of two or more tags: the
      first tag, then the rest from after the first separator. */
  lemma SplitFromFirstTag(s: string, p: nat, ts: seq<string>, seps: seq<string>) returns (j: nat)
    requires |ts| >= 2 && |seps| == |ts| - 1 && AllTags(ts) && AllSeparators(seps)
    requires p <= |s| && s[p..] == Interleave(ts, seps)
    ensures j <= |s| && s[j..] == Interleave(ts[1..], seps[1..])
    ensures SplitFrom(s, p) == [ts[0]] + SplitFrom(s, j)
  {
    InterleaveCons(ts, seps);
    j := SplitFromTagThenRun(s, p, ts[0], seps[0], Interleave(ts[1..], seps[1..]));
  }

  lemma {:induction false} SplitFromInterleave(s: string, p: nat, ts: seq<string>, seps: seq<string>)
    requires |ts| >= 1 && |seps| == |ts| - 1 && AllTags(ts) && AllSeparators(seps)
    requires p <= |s| && s[p..] == Interleave(ts, seps)
    ensures SplitFrom(s, p) == ts
    decreases |ts|
  {
    AllTagsParts(ts);
    if |ts| == 1 {
      SplitFromLastTag(s, p, ts[0]);
    } else {
      AllSeparatorsParts(seps);
      var j := SplitFromFirstTag(s, p, ts, seps);
      SplitFromInterleave(s, j, ts[1..], seps[1..]);
      assert ts == [ts[0]] + ts[1..];
    }
  }

  /** Trimming a text that neither starts nor ends with white space, framed
      by white space on both sides, gives the text. */
  lemma TrimFramed(pre: string, x: string, post: string)
    requires AllSpace(pre) && AllSpace(post)
    requires x != [] && !IsSpace(x[0]) && !IsSpace(x[|x| - 1])
    ensures Trim(pre + (x + post)) == x
  {
    var s := pre + (x + post);
    var a := |pre|;
    var e := |pre| + |x|;
    assert forall k :: 0 <= k < a ==> s[k] == pre[k];
    assert forall k :: e <= k < |s| ==> s[k] == post[k - e];
    assert s[a] == x[0] && s[e - 1] == x[|x| - 1];
    SkipSpacesAt(s, 0, a);
    SkipTrailingSpacesAt(s, a, e, |s|);
    assert s[a..e] == x;
  }

  /** Tokenizing non-empty, white-space-free tags separated by any non-empty
      runs of white space, with any white space before and after, gives the
      tags back: every run of `\s` characters, of any length and kind,
      separates two tags. */
  lemma TokenizeInterleave(pre: string, ts: seq<string>, seps: seq<string>, post: string)
    requires |ts| >= 1 && |seps| == |ts| - 1 && AllTags(ts) && AllSeparators(seps)
    requires AllSpace(pre) && AllSpace(post)
    ensures Tokenize(pre + (Interleave(ts, seps) + post)) == ts
  {
    var x := Interleave(ts, seps);
    InterleaveStart(ts, seps);
    InterleaveEnd(ts, seps);
    TrimFramed(pre, x, post);
    assert x[0..] == x;
    SplitFromInterleave(x, 0, ts, seps);
  }

  lemma {:induction false} JoinIsInterleave(ts: seq<string>)
    requires |ts| >= 1
    ensures Join(ts) == Interleave(ts, seq(|ts| - 1, _ => " "))
    decreases |ts|
  {
    if |ts| > 1 {
      JoinIsInterleave(ts[1..]);
      assert seq(|ts| - 1, _ => " ")[1..] == seq(|ts| - 2, _ => " ");
    }
  }

  /** Joining non-empty, white-space-free tags with single blanks and
      tokenizing the result gives the tags back. */
  lemma TokenizeJoin(ts: seq<string>)
    requires |ts| >= 1 && AllTags(ts)
    ensures Tokenize(Join(ts)) == ts
  {
    var blanks := seq(|ts| - 1, _ => " ");
    assert AllSpace(" ");
    assert AllSeparators(blanks);
    JoinIsInterleave(ts);
    TokenizeInterleave("", ts, blanks, "");
    assert "" + (Join(ts) + "") == Join(ts);
  }

  /** The tags string "x y" becomes the tag list `["x", "y"]`. */
  lemma TokenizeTwoTags()
    ensures Tokenize("x y") == ["x", "y"]
  {
    assert AllTags(["x", "y"]);
    TokenizeJoin(["x", "y"]);
    assert Join(["x", "y"]) == "x y";
  }

  lemma MixedSpaceParts()
    ensures AllTags(["a", "b"]) && AllSeparators(["  "])
    ensures AllSpace(" ") && AllSpace("\t")
    ensures " " + (Interleave(["a", "b"], ["  "]) + "\t") == " a  b\t"
  {
    assert ["a", "b"][1..] == ["b"];
  }

  /** Leading, trailing and repeated white space of mixed kinds: the tags
      string " a  b\t" becomes `["a", "b"]`. */
  lemma TokenizeMixedSpace()
    ensures Tokenize(" a  b\t") == ["a", "b"]
  {
    MixedSpaceParts();
    TokenizeInterleave(" ", ["a", "b"], ["  "], "\t");
  }
}
