/** `splitReply` (main.js): a raw model reply is split into the answer shown to the user and an
    optional "thoughts" block. `splitReply`'s pattern is `/think>([\s\S]*?)<\s*\/think>/i`: the
    opening marker is `think>` WITHOUT a leading `<`, so a `<` in front of it stays in the answer. */
module ReplySplit {
  import opened Wrappers
  import opened Text

  datatype Reply = Reply(answer: string, thoughts: Option<string>)

  /** The opening marker the pattern actually searches for. */
  const OpenMarker: string := "think>"

  /** The closing marker after its `<` and optional whitespace. */
  const CloseMarker: string := "/think>"

  /** `marker` (lower case) stands at position `i` of `s`, letters compared without case. With the
      `i` flag and no `u` flag, a letter of "think" matches only its two ASCII cases. */
  predicate MarkerAt(s: string, i: nat, marker: string) {
    i + |marker| <= |s| && Lower(s[i..i + |marker|]) == marker
  }

  /** The length of the run of `\s` characters starting at `j`. */
  function SpaceRun(s: string, j: nat): (n: nat)
    requires j <= |s|
    ensures j + n <= |s|
    ensures forall k :: j <= k < j + n ==> IsJsSpace(s[k])
    ensures j + n == |s| || !IsJsSpace(s[j + n])
    decreases |s| - j
  {
    if j < |s| && IsJsSpace(s[j]) then 1 + SpaceRun(s, j + 1) else 0
  }

  /** `<\s*\/think>` matches at `j`. Since `/` is not whitespace, the greedy `\s*` must take the
      whole whitespace run, so the match is unique. */
  predicate CloseAt(s: string, j: nat) {
    j < |s| && s[j] == '<' && MarkerAt(s, j + 1 + SpaceRun(s, j + 1), CloseMarker)
  }

  /** The position just after the closing match at `j`. */
  function CloseEnd(s: string, j: nat): nat
    requires CloseAt(s, j)
  {
    j + 1 + SpaceRun(s, j + 1) + |CloseMarker|
  }

  /** The whole pattern matches with the opening marker at `i` and the closing one at `j`. */
  predicate MatchAt(s: string, i: nat, j: nat) {
    MarkerAt(s, i, OpenMarker) && i + |OpenMarker| <= j && CloseAt(s, j)
  }

  /** The first opening marker at or after `from`; `|s|` when there is none. */
  function FindOpen(s: string, from: nat): (r: nat)
    requires from <= |s|
    ensures from <= r <= |s|
    ensures r < |s| ==> MarkerAt(s, r, OpenMarker)
    ensures forall k :: from <= k < r ==> !MarkerAt(s, k, OpenMarker)
    decreases |s| - from
  {
    if from == |s| || MarkerAt(s, from, OpenMarker) then from else FindOpen(s, from + 1)
  }

  /** The first closing match at or after `from` (the lazy `*?`); `|s|` when there is none. */
  function FindClose(s: string, from: nat): (r: nat)
    requires from <= |s|
    ensures from <= r <= |s|
    ensures r < |s| ==> CloseAt(s, r)
    ensures forall k :: from <= k < r ==> !CloseAt(s, k)
    decreases |s| - from
  {
    if from == |s| || CloseAt(s, from) then from else FindClose(s, from + 1)
  }

  /** `splitReply(raw)`. */
  function SplitReply(raw: string): Reply {
    if raw == "" then Reply("", None)
    else
      var i := FindOpen(raw, 0);
      if i == |raw| then Reply(JsTrim(raw), None)
      else
        var j := FindClose(raw, i + |OpenMarker|);
        if j == |raw| then Reply(JsTrim(raw), None)
        else Reply(JsTrim(raw[..i] + raw[CloseEnd(raw, j)..]), Some(JsTrim(raw[i + |OpenMarker|..j])))
  }

  /** An empty reply gives an empty answer and no thoughts. */
  lemma EmptyReply()
    ensures SplitReply("") == Reply("", None)
  {
  }

  /** Thoughts are reported exactly when the pattern matches somewhere. */
  lemma {:induction false} ThoughtsIffMatch(raw: string)
    ensures SplitReply(raw).thoughts.Some? <==> exists i: nat, j: nat :: MatchAt(raw, i, j)
  {
    if exists i: nat, j: nat :: MatchAt(raw, i, j) {
      var i: nat, j: nat :| MatchAt(raw, i, j);
      var i0 := FindOpen(raw, 0);
      assert i0 <= i;
      var j0 := FindClose(raw, i0 + |OpenMarker|);
      assert j0 <= j;
    } else {
      var i0 := FindOpen(raw, 0);
      if raw != "" && i0 < |raw| {
        var j0 := FindClose(raw, i0 + |OpenMarker|);
        assert j0 < |raw| ==> MatchAt(raw, i0, j0);
      }
    }
  }

  /** Without a match the answer is the trimmed reply and there are no thoughts. */
  lemma NoMatchAnswer(raw: string)
    requires forall i: nat, j: nat :: !MatchAt(raw, i, j)
    ensures SplitReply(raw) == Reply(JsTrim(raw), None)
  {
    var i0 := FindOpen(raw, 0);
    if raw != "" && i0 < |raw| {
      var j0 := FindClose(raw, i0 + |OpenMarker|);
      assert j0 < |raw| ==> MatchAt(raw, i0, j0);
    }
  }

  /** What `SplitReply` returns once the searches have found `i` and `j`. */
  lemma SplitReplyFound(raw: string, i: nat, j: nat)
    requires i < |raw| && FindOpen(raw, 0) == i
    requires j < |raw| && FindClose(raw, i + |OpenMarker|) == j
    ensures SplitReply(raw) == Reply(JsTrim(raw[..i] + raw[CloseEnd(raw, j)..]), Some(JsTrim(raw[i + |OpenMarker|..j])))
  {
  }

  /** The leftmost match, with the nearest closing marker after it, is the one cut out: the thoughts
      are its trimmed inside, the answer the trimmed text before and after it put together. */
  lemma {:induction false} LeftmostMatchIsCut(raw: string, i: nat, j: nat)
    requires MatchAt(raw, i, j)
    requires forall i': nat, j': nat :: i' < i ==> !MatchAt(raw, i', j')
    requires forall j': nat :: j' < j ==> !MatchAt(raw, i, j')
    ensures SplitReply(raw) == Reply(JsTrim(raw[..i] + raw[CloseEnd(raw, j)..]), Some(JsTrim(raw[i + |OpenMarker|..j])))
  {
    var i0 := FindOpen(raw, 0);
    assert i0 == i by {
      assert i0 <= i;
      if i0 < i {
        assert MatchAt(raw, i0, j);
      }
    }
    var j0 := FindClose(raw, i + |OpenMarker|);
    assert j0 == j by {
      assert j0 <= j;
      if j0 < j {
        assert MatchAt(raw, i, j0);
      }
    }
    SplitReplyFound(raw, i, j);
  }

  /** Both markers are already in lower case. */
  lemma MarkersLower()
    ensures Lower(OpenMarker) == OpenMarker && Lower(CloseMarker) == CloseMarker
  {
    LowerFixed(OpenMarker);
    LowerFixed(CloseMarker);
  }

  /** Where the markers of `pre + "<think>" + body + "</think>" + post` stand. */
  lemma WrappedMarkers(pre: string, body: string, post: string)
    ensures var raw := pre + "<think>" + body + "</think>" + post;
      var j := |pre| + 7 + |body|;
      MarkerAt(raw, |pre| + 1, OpenMarker) && CloseAt(raw, j) && CloseEnd(raw, j) == j + 8
  {
    var raw := pre + "<think>" + body + "</think>" + post;
    var head := pre + "<think>";
    var front := head + body;
    assert raw[..|head|] == head;
    assert raw[|front|..] == "</think>" + post;
    MarkersLower();
    WrappedOpen(raw, pre);
    WrappedClose(raw, |front|, post);
  }

  /** The opening marker stands right after the `<` that follows `pre`. */
  lemma WrappedOpen(raw: string, pre: string)
    requires |pre| + 7 <= |raw| && raw[..|pre| + 7] == pre + "<think>"
    requires Lower(OpenMarker) == OpenMarker
    ensures MarkerAt(raw, |pre| + 1, OpenMarker)
  {
    var i := |pre| + 1;
    assert raw[i..i + 6] == raw[..|pre| + 7][i..i + 6];
  }

  /** The `/` of the closing marker ends any whitespace run. */
  lemma SlashNotSpace()
    ensures !IsJsSpace('/')
  {
  }

  /** The closing match stands at `j`, with no whitespace after its `<`. */
  lemma WrappedClose(raw: string, j: nat, post: string)
    requires j <= |raw| && raw[j..] == "</think>" + post
    requires Lower(CloseMarker) == CloseMarker
    ensures CloseAt(raw, j) && CloseEnd(raw, j) == j + 8
  {
    var tail := raw[j..];
    assert raw[j] == tail[0] == '<';
    assert raw[j + 1] == tail[1] == '/';
    SlashNotSpace();
    assert SpaceRun(raw, j + 1) == 0;
    assert raw[j + 1..j + 8] == tail[1..8];
  }

  /** The pieces of `pre + "<think>" + body + "</think>" + post` around its markers. */
  lemma WrappedPieces(pre: string, body: string, post: string)
    ensures var raw := pre + "<think>" + body + "</think>" + post;
      var i := |pre| + 1;
      var j := |pre| + 7 + |body|;
      raw[..i] == pre + "<" && raw[j + 8..] == post && raw[i + 6..j] == body
  {
    var raw := pre + "<think>" + body + "</think>" + post;
    var head := pre + "<think>";
    var tail := "</think>" + post;
    assert raw == head + body + tail;
    var i := |pre| + 1;
    var j := |pre| + 7 + |body|;
    assert raw[..i] == head[..i];
    assert raw[j..] == tail;
    assert (head + body + tail)[|head|..|head| + |body|] == body;
  }

  /** The quirk: for a reply `pre + "<think>" + body + "</think>" + post` whose first opening marker is
      the one after "<" and whose body holds no closing marker, the `<` survives in the answer. */
  lemma {:induction false} AngleBracketSurvives(pre: string, body: string, post: string)
    requires var raw := pre + "<think>" + body + "</think>" + post;
      forall k: nat :: k <= |pre| ==> !MarkerAt(raw, k, OpenMarker)
    requires var raw := pre + "<think>" + body + "</think>" + post;
      forall k: nat :: |pre| + 7 <= k < |pre| + 7 + |body| ==> !CloseAt(raw, k)
    ensures SplitReply(pre + "<think>" + body + "</think>" + post)
      == Reply(JsTrim(pre + "<" + post), Some(JsTrim(body)))
  {
    var raw := pre + "<think>" + body + "</think>" + post;
    var i := |pre| + 1;
    var j := |pre| + 7 + |body|;
    WrappedMarkers(pre, body, post);
    WrappedPieces(pre, body, post);
    forall i': nat, j': nat | i' < i ensures !MatchAt(raw, i', j') {
    }
    forall j': nat | j' < j ensures !MatchAt(raw, i, j') {
    }
    LeftmostMatchIsCut(raw, i, j);
    var outside := raw[..i] + raw[CloseEnd(raw, j)..];
    var inside := raw[i + |OpenMarker|..j];
    assert outside == pre + "<" + post;
    assert inside == body;
    assert SplitReply(raw) == Reply(JsTrim(outside), Some(JsTrim(inside)));
  }
}
