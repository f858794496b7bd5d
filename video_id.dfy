/** `extract_video_id` of usecases/youtube-transcript/main.py: the video id
    of a YouTube link, or a bare eleven-character id, found with two
    regular expressions tried in turn with `re.search`.

    The first expression, unanchored, is one of three link prefixes
    followed by a greedy run, at least one long, of characters other than
    `&`, line feed, `?` and `#`; `re.search` reports the leftmost position
    where it matches. The second is `^` eleven characters from
    `[a-zA-Z0-9_-]` and `$`, where Python's `$` also matches before a final
    line feed. */
module VideoId {
  import opened Wrappers
  import opened Text

  /** The three link forms the first expression accepts, in the order of
      its alternatives. */
  datatype LinkForm = Watch | Short | Embed

  function Prefix(f: LinkForm): (a: string)
    ensures |a| >= 9
  {
    match f
    case Watch => "youtube.com/watch?v="
    case Short => "youtu.be/"
    case Embed => "youtube.com/embed/"
  }

  /** Where each prefix has its `.`. */
  function DotIndex(f: LinkForm): (i: nat)
    ensures i < |Prefix(f)| && Prefix(f)[i] == '.'
  {
    if f == Short then 5 else 7
  }

  const IdLength: nat := 11

  /** `[^&\n?#]`. */
  predicate InRun(c: char)
  {
    c != '&' && c != '\n' && c != '?' && c != '#'
  }

  /** `[a-zA-Z0-9_-]`. */
  predicate IdChar(c: char)
  {
    ('a' <= c <= 'z') || ('A' <= c <= 'Z') || ('0' <= c <= '9') || c == '_' || c == '-'
  }

  /** The end of the greedy run of `InRun` characters that starts at `q`. */
  function RunEnd(s: string, q: nat): (e: nat)
    requires q <= |s|
    ensures q <= e <= |s|
    ensures forall k :: q <= k < e ==> InRun(s[k])
    ensures e == |s| || !InRun(s[e])
    decreases |s| - q
  {
    if q == |s| || !InRun(s[q]) then q else RunEnd(s, q + 1)
  }

  /** Form `f` matches at `p`: its prefix occurs there and is followed by
      at least one run character. */
  predicate MatchesAt(s: string, f: LinkForm, p: nat)
  {
    OccursAt(s, Prefix(f), p) && p + |Prefix(f)| < |s| && InRun(s[p + |Prefix(f)|])
  }

  /** The group: the run after the prefix of `f` at `p`. */
  function Group(s: string, f: LinkForm, p: nat): string
    requires MatchesAt(s, f, p)
  {
    s[p + |Prefix(f)|..RunEnd(s, p + |Prefix(f)|)]
  }

  /** The alternative the first expression uses at position `p`: the
      first form, in order, that matches there. */
  function FormAt(s: string, p: nat): (r: Option<LinkForm>)
    ensures r.Some? ==> MatchesAt(s, r.value, p)
    ensures r.None? <==> forall f :: !MatchesAt(s, f, p)
    ensures r == Some(Short) ==> !MatchesAt(s, Watch, p)
    ensures r == Some(Embed) ==> !MatchesAt(s, Watch, p) && !MatchesAt(s, Short, p)
  {
    if MatchesAt(s, Watch, p) then Some(Watch)
    else if MatchesAt(s, Short, p) then Some(Short)
    else if MatchesAt(s, Embed, p) then Some(Embed)
    else None
  }

  /** `re.search` with the first expression from position `p` on: the
      leftmost position where it matches. */
  function FirstMatch(s: string, p: nat): (r: Option<nat>)
    requires p <= |s|
    ensures r.Some? ==> p <= r.value <= |s| && FormAt(s, r.value).Some?
    ensures r.Some? ==> forall k :: p <= k < r.value ==> FormAt(s, k).None?
    ensures r.None? ==> forall k :: p <= k <= |s| ==> FormAt(s, k).None?
    decreases |s| - p
  {
    if FormAt(s, p).Some? then Some(p)
    else if p == |s| then None
    else FirstMatch(s, p + 1)
  }

  /** The group of the leftmost match, if there is one. */
  function Search(s: string): Option<string>
  {
    match FirstMatch(s, 0)
    case None => None
    case Some(q) => Some(Group(s, FormAt(s, q).value, q))
  }

  /** The second expression: eleven id characters, then the end or a
      final line feed. */
  predicate BareId(s: string)
  {
    && (|s| == IdLength || (|s| == IdLength + 1 && s[IdLength] == '\n'))
    && forall k :: 0 <= k < IdLength ==> IdChar(s[k])
  }

  function InvalidUrl(url: string): string
  {
    "유효한 유튜브 URL이 아닙니다: " + url
  }

  /** `extract_video_id`. */
  function ExtractVideoId(url: string): (r: Result<string, string>)
    ensures r.Err? <==> Search(url).None? && !BareId(url)
    ensures r.Err? ==> r.error == InvalidUrl(url)
    ensures Search(url).Some? ==> r == Ok(Search(url).value)
    ensures Search(url).None? && BareId(url) ==> r == Ok(url[..IdLength])
  {
    match Search(url)
    case Some(id) => Ok(id)
    case None => if BareId(url) then Ok(url[..IdLength]) else Err(InvalidUrl(url))
  }

  /** A returned id is not empty and holds none of `&`, `?`, `#` or a
      line feed. */
  lemma IdIsClean(url: string)
    requires ExtractVideoId(url).Ok?
    ensures |ExtractVideoId(url).value| >= 1
    ensures forall k :: 0 <= k < |ExtractVideoId(url).value| ==> InRun(ExtractVideoId(url).value[k])
  {
    if FirstMatch(url, 0).Some? {
      var q := FirstMatch(url, 0).value;
      var f := FormAt(url, q).value;
      assert Group(url, f, q)[0] == url[q + |Prefix(f)|];
    }
  }

  /** A link found by the first expression: the id is the whole run
      after a prefix, at the leftmost position where some prefix is
      followed by a run character. */
  lemma LinkIdIsLeftmostRun(url: string)
    requires Search(url).Some?
    ensures exists q: nat, f :: (q < |url| && MatchesAt(url, f, q)
      && ExtractVideoId(url).value == Group(url, f, q)
      && forall k: nat, g :: k < q ==> !MatchesAt(url, g, k))
  {
    var q := FirstMatch(url, 0).value;
    var f := FormAt(url, q).value;
    assert MatchesAt(url, f, q);
    forall k: nat, g | k < q ensures !MatchesAt(url, g, k) {
      assert FormAt(url, k).None?;
    }
  }

  /** No prefix occurs in a text of id characters and line feeds: every
      prefix holds a `.`. */
  lemma NoPrefixInIdText(s: string, p: nat)
    requires forall k :: 0 <= k < |s| ==> IdChar(s[k]) || s[k] == '\n'
    ensures FormAt(s, p).None?
  {
    NoPrefixAt(s, Watch, p);
    NoPrefixAt(s, Short, p);
    NoPrefixAt(s, Embed, p);
  }

  lemma NoPrefixAt(s: string, f: LinkForm, p: nat)
    requires forall k :: 0 <= k < |s| ==> IdChar(s[k]) || s[k] == '\n'
    ensures !OccursAt(s, Prefix(f), p)
  {
    OccursAtChar(s, Prefix(f), p, DotIndex(f));
  }

  /** A bare id is returned as it is, not mistaken for a link; a final
      line feed is dropped. */
  lemma BareIdAccepted(s: string)
    requires BareId(s)
    ensures ExtractVideoId(s) == Ok(s[..IdLength])
    ensures |s| == IdLength ==> ExtractVideoId(s) == Ok(s)
  {
    var m := FirstMatch(s, 0);
    if m.Some? {
      NoPrefixInIdText(s, m.value);
      assert false;
    }
    assert Search(s).None?;
    if |s| == IdLength {
      assert s[..IdLength] == s;
    }
  }

  /** Any text in which no prefix is followed by a run character and
      which is not a bare id is refused. */
  lemma RefusedOtherwise(url: string)
    requires forall q: nat, f :: q <= |url| ==> !MatchesAt(url, f, q)
    requires !BareId(url)
    ensures ExtractVideoId(url) == Err(InvalidUrl(url))
  {
    if FirstMatch(url, 0).Some? {
      assert false;
    }
  }

  /** A text that starts with a prefix and an id yields that id. */
  lemma LinkAtStart(f: LinkForm, id: string, rest: string)
    requires |id| >= 1 && forall k :: 0 <= k < |id| ==> InRun(id[k])
    requires rest == [] || !InRun(rest[0])
    ensures ExtractVideoId(Prefix(f) + id + rest) == Ok(id)
  {
    var a := Prefix(f);
    var s := a + id + rest;
    assert s[0..|a|] == a;
    assert s[|a|] == id[0];
    RunOf(s, |a|, id, rest, a);
    assert MatchesAt(s, f, 0);
    assert FirstMatch(s, 0) == Some(0);
    var g := FormAt(s, 0).value;
    assert g == f by {
      PrefixesExclusive(s, f, g, 0);
    }
    assert Group(s, f, 0) == id;
  }

  /** At most one prefix occurs at any position: they differ within the
      shorter one's length. */
  lemma PrefixesExclusive(s: string, f: LinkForm, g: LinkForm, p: nat)
    requires OccursAt(s, Prefix(f), p) && OccursAt(s, Prefix(g), p)
    ensures f == g
  {
    var i := if f == Short || g == Short then 5 else 12;
    OccursAtChar(s, Prefix(f), p, i);
    OccursAtChar(s, Prefix(g), p, i);
  }

  lemma RunOf(s: string, q: nat, id: string, rest: string, a: string)
    requires s == a + id + rest && q == |a|
    requires forall k :: 0 <= k < |id| ==> InRun(id[k])
    requires rest == [] || !InRun(rest[0])
    ensures RunEnd(s, q) == q + |id|
    ensures s[q..q + |id|] == id
    decreases |id|
  {
    if id != [] {
      var a' := a + [id[0]];
      assert s == a' + id[1..] + rest;
      RunOf(s, q + 1, id[1..], rest, a');
    }
  }
}
