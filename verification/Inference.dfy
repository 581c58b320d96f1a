/** Which configured downstream and operation a request belongs to. */
module Inference {
  import opened Wrappers
  import opened Text
  import opened NamedLists
  import opened Ranking
  import opened ConfigFiles

  /** The part of a request URL that inference looks at. */
  datatype Url = Url(host: string, hostname: string, path: string)

  // ----- scores -----

  function CountOf(s: string, c: char): nat {
    if s == "" then 0 else CountOf(s[..|s| - 1], c) + if s[|s| - 1] == c then 1 else 0
  }

  lemma {:induction false} CountsFit(s: string)
    ensures CountOf(s, '*') + CountOf(s, '?') <= |s|
    ensures '/' in s ==> CountOf(s, '*') + CountOf(s, '?') < |s|
  {
    if s != "" {
      CountsFit(s[..|s| - 1]);
      assert s == s[..|s| - 1] + [s[|s| - 1]];
    }
  }

  /** The characters of a pattern that are not wildcards. */
  function Literals(pattern: string): (n: nat)
    ensures n <= |pattern|
    ensures '/' in pattern ==> n > 0
  {
    CountsFit(pattern);
    |pattern| - CountOf(pattern, '*') - CountOf(pattern, '?')
  }

  function SegmentBonus(pattern: string): nat {
    if '/' in pattern then 200 else 0
  }

  predicate IsExact(pattern: string, candidate: string) {
    Lower(Trim(pattern)) == Lower(candidate)
  }

  predicate Applies(lib: Library, pattern: string, candidate: string) {
    && Trim(pattern) != "" && candidate != ""
    && (IsExact(pattern, candidate) || lib.glob(Lower(Trim(pattern)), Lower(candidate)) == Some(true))
  }

  /** downstreamPatternMatchSpecificity. */
  function Score(lib: Library, pattern: string, candidate: string): nat {
    var p := Trim(pattern);
    if !Applies(lib, pattern, candidate) then 0
    else (if IsExact(pattern, candidate) then 1000 else 100) + Literals(p) + SegmentBonus(p)
  }

  /** The places of a character. */
  function PlacesOf(s: string, c: char): set<int> {
    set i | 0 <= i < |s| && s[i] == c
  }

  lemma {:induction false} CountExactly(s: string, c: char)
    ensures CountOf(s, c) == |PlacesOf(s, c)|
  {
    if s != "" {
      var n := |s| - 1;
      CountExactly(s[..n], c);
      assert PlacesOf(s, c) == PlacesOf(s[..n], c) + if s[n] == c then {n} else {};
    }
  }

  /** A pattern applies when it is the candidate, up to case, or a glob that matches it; and it
      scores 1000 or 100, one for each character that is no wildcard, and 200 with a slash. */
  lemma ScoreExactly(lib: Library, pattern: string, candidate: string)
    ensures
      var p := Trim(pattern);
      var same := EqualUpToCase(p, candidate);
      var applies := p != "" && candidate != "" && (same || lib.glob(Lower(p), Lower(candidate)) == Some(true));
      && (Applies(lib, pattern, candidate) <==> applies)
      && Score(lib, pattern, candidate) ==
         (if !applies then 0
          else
            (if same then 1000 else 100) + |p| - |PlacesOf(p, '*')| - |PlacesOf(p, '?')|
            + (if '/' in p then 200 else 0))
  {
    var p := Trim(pattern);
    FoldExactly(p, candidate);
    CountExactly(p, '*');
    CountExactly(p, '?');
    hide Trim, Lower, PlacesOf, CountOf, EqualUpToCase;
  }

  /** An exact match wins against a glob exactly when the glob's literals, with 200 more for
      a slash, do not make up the difference of 900. */
  lemma ExactAgainstGlob(lib: Library, exact: string, c1: string, glob: string, c2: string)
    requires Applies(lib, exact, c1) && IsExact(exact, c1)
    requires Applies(lib, glob, c2) && !IsExact(glob, c2)
    ensures
      var p, q := Trim(exact), Trim(glob);
      Score(lib, exact, c1) > Score(lib, glob, c2) <==>
        Literals(q) + SegmentBonus(q) < 900 + Literals(p) + SegmentBonus(p)
    ensures |Trim(glob)| < 700 ==> Score(lib, exact, c1) > Score(lib, glob, c2)
  {
    hide Trim, Lower, Literals;
  }

  /** Among matches of one kind, a pattern with a path segment wins against a host-only one
      exactly when it has fewer than 200 literals less. */
  lemma SegmentAgainstHost(lib: Library, segment: string, c1: string, host: string, c2: string)
    requires Applies(lib, segment, c1) && Applies(lib, host, c2) && (IsExact(segment, c1) <==> IsExact(host, c2))
    requires '/' in Trim(segment) && '/' !in Trim(host)
    ensures Score(lib, segment, c1) > Score(lib, host, c2) <==> Literals(Trim(host)) < Literals(Trim(segment)) + 200
    ensures |Trim(host)| <= 200 ==> Score(lib, segment, c1) > Score(lib, host, c2)
  {
    hide Trim, Lower, CountOf;
  }

  // ----- the best downstream -----

  function Max(a: nat, b: nat): nat {
    if b > a then b else a
  }

  function PatternScore(lib: Library, pattern: string, candidates: seq<string>): nat {
    if candidates == [] then 0
    else Max(PatternScore(lib, pattern, candidates[..|candidates| - 1]),
             Score(lib, pattern, candidates[|candidates| - 1]))
  }

  function HostsScore(lib: Library, hosts: seq<string>, candidates: seq<string>): nat {
    if hosts == [] then 0
    else Max(HostsScore(lib, hosts[..|hosts| - 1], candidates), PatternScore(lib, hosts[|hosts| - 1], candidates))
  }

  lemma {:induction false} PatternScoreIsMax(lib: Library, pattern: string, candidates: seq<string>)
    ensures forall k :: 0 <= k < |candidates| ==>
      Score(lib, pattern, candidates[k]) <= PatternScore(lib, pattern, candidates)
    ensures PatternScore(lib, pattern, candidates) > 0 ==>
      exists k :: 0 <= k < |candidates| && Score(lib, pattern, candidates[k]) == PatternScore(lib, pattern, candidates)
  {
    hide Score;
    if candidates != [] {
      var before := candidates[..|candidates| - 1];
      PatternScoreIsMax(lib, pattern, before);
      assert forall k :: 0 <= k < |before| ==> before[k] == candidates[k];
      if PatternScore(lib, pattern, candidates) == PatternScore(lib, pattern, before) > 0 {
        var k :| 0 <= k < |before| && Score(lib, pattern, before[k]) == PatternScore(lib, pattern, before);
        assert candidates[k] == before[k];
      }
    }
  }

  /** The score of a host list is that of its best pair of pattern and candidate. */
  lemma {:induction false} HostsScoreIsMax(lib: Library, hosts: seq<string>, candidates: seq<string>)
    ensures forall i, k :: 0 <= i < |hosts| && 0 <= k < |candidates| ==>
      Score(lib, hosts[i], candidates[k]) <= HostsScore(lib, hosts, candidates)
    ensures HostsScore(lib, hosts, candidates) > 0 ==>
      exists i, k ::
        0 <= i < |hosts| && 0 <= k < |candidates|
        && Score(lib, hosts[i], candidates[k]) == HostsScore(lib, hosts, candidates)
  {
    hide Score, PatternScore;
    if hosts != [] {
      var before, last := hosts[..|hosts| - 1], hosts[|hosts| - 1];
      HostsScoreIsMax(lib, before, candidates);
      PatternScoreIsMax(lib, last, candidates);
      assert forall i :: 0 <= i < |before| ==> before[i] == hosts[i];
      if HostsScore(lib, hosts, candidates) > 0 {
        if HostsScore(lib, hosts, candidates) == HostsScore(lib, before, candidates) {
          var i, k :|
            0 <= i < |before| && 0 <= k < |candidates|
            && Score(lib, before[i], candidates[k]) == HostsScore(lib, before, candidates);
          assert Score(lib, hosts[i], candidates[k]) == HostsScore(lib, hosts, candidates);
        } else {
          var k :| 0 <= k < |candidates| && Score(lib, last, candidates[k]) == PatternScore(lib, last, candidates);
          assert Score(lib, hosts[|hosts| - 1], candidates[k]) == HostsScore(lib, hosts, candidates);
        }
      }
    }
  }

  datatype Leader = Leader(name: string, score: nat)

  function Overtake(leader: Leader, name: string, score: nat): Leader {
    if score > leader.score then Leader(name, score) else leader
  }

  function Best(lib: Library, items: seq<CompiledDownstream>, candidates: seq<string>): Leader {
    if items == [] then Leader("", 0)
    else
      var last := items[|items| - 1];
      Overtake(Best(lib, items[..|items| - 1], candidates), last.name, HostsScore(lib, last.hosts, candidates))
  }

  /** The leader is the first item, in configuration order, that attains the highest score
      of all; there is none exactly when no pattern of any item applies to any candidate. */
  lemma {:induction false} BestIsFirstMaximal(lib: Library, items: seq<CompiledDownstream>, candidates: seq<string>)
    ensures
      var best := Best(lib, items, candidates);
      && (forall j :: 0 <= j < |items| ==> HostsScore(lib, items[j].hosts, candidates) <= best.score)
      && (best.score == 0 ==> best.name == "")
      && (best.score > 0 ==>
            exists i ::
              0 <= i < |items| && items[i].name == best.name
              && HostsScore(lib, items[i].hosts, candidates) == best.score
              && forall j :: 0 <= j < i ==> HostsScore(lib, items[j].hosts, candidates) < best.score)
  {
    hide HostsScore;
    if items != [] {
      var before := items[..|items| - 1];
      BestIsFirstMaximal(lib, before, candidates);
      assert forall j :: 0 <= j < |before| ==> before[j] == items[j];
      var best := Best(lib, items, candidates);
      if best.score > 0 && best == Best(lib, before, candidates) {
        var i :| 0 <= i < |before| && before[i].name == best.name
          && HostsScore(lib, before[i].hosts, candidates) == best.score
          && forall j :: 0 <= j < i ==> HostsScore(lib, before[j].hosts, candidates) < best.score;
        assert items[i].name == best.name;
      }
    }
  }

  /** The triple loop of inferDownstream. */
  method FindBest(lib: Library, items: seq<CompiledDownstream>, candidates: seq<string>) returns (best: Leader)
    ensures best == Best(lib, items, candidates)
  {
    hide Score;
    best := Leader("", 0);
    for i := 0 to |items|
      invariant best == Best(lib, items[..i], candidates)
    {
      assert items[..i + 1][..i] == items[..i];
      ghost var leader := best;
      var item := items[i];
      for h := 0 to |item.hosts|
        invariant best == Overtake(leader, item.name, HostsScore(lib, item.hosts[..h], candidates))
      {
        assert item.hosts[..h + 1][..h] == item.hosts[..h];
        for c := 0 to |candidates|
          invariant best == Overtake(leader, item.name,
            Max(HostsScore(lib, item.hosts[..h], candidates), PatternScore(lib, item.hosts[h], candidates[..c])))
        {
          assert candidates[..c + 1][..c] == candidates[..c];
          var score := Score(lib, item.hosts[h], candidates[c]);
          if score > best.score {
            best := Leader(item.name, score);
          }
        }
        assert candidates[..|candidates|] == candidates;
      }
      assert item.hosts[..|item.hosts|] == item.hosts;
    }
    assert items[..|items|] == items;
  }

  // ----- names -----

  /** Up to the first occurrence of a separator. */
  function UpTo(s: string, c: char): (t: string)
    ensures t <= s && c !in t
    ensures t != s ==> s[|t|] == c
  {
    if s == "" || s[0] == c then ""
    else [s[0]] + UpTo(s[1..], c)
  }

  function WithoutLeading(s: string, c: char): string {
    if s != "" && s[0] == c then WithoutLeading(s[1..], c) else s
  }

  function WithoutTrailing(s: string, c: char): string {
    if s != "" && s[|s| - 1] == c then WithoutTrailing(s[..|s| - 1], c) else s
  }

  function FirstPathSegment(path: string): string {
    Trim(UpTo(WithoutTrailing(WithoutLeading(Trim(path), '/'), '/'), '/'))
  }

  function JoinHostAndSegment(host: string, path: string): string {
    var h, segment := Trim(host), FirstPathSegment(path);
    if h == "" then segment
    else if segment == "" then h
    else h + "/" + segment
  }

  function Candidates(url: Url): seq<string> {
    [url.hostname, url.host, JoinHostAndSegment(url.hostname, url.path), JoinHostAndSegment(url.host, url.path)]
  }

  predicate AllSlashes(s: string) {
    forall i :: 0 <= i < |s| ==> s[i] == '/'
  }

  /** A trimmed path in parts: slashes, what stands before the next slash, and the rest. */
  predicate Splits(path: string, slashes: string, segment: string, rest: string) {
    && Trim(path) == slashes + (segment + rest)
    && AllSlashes(slashes) && '/' !in segment && (rest == "" || rest[0] == '/')
    && (segment == "" ==> rest == "")
  }

  lemma {:induction false} LeadingStripped(slashes: string, bare: string)
    requires AllSlashes(slashes) && (bare == "" || bare[0] != '/')
    ensures WithoutLeading(slashes + bare, '/') == bare
    decreases slashes
  {
    if slashes == "" {
      assert slashes + bare == bare;
    } else {
      assert (slashes + bare)[1..] == slashes[1..] + bare;
      LeadingStripped(slashes[1..], bare);
    }
  }

  lemma {:induction false} UpToSegment(segment: string, rest: string)
    requires '/' !in segment && (rest == "" || rest[0] == '/')
    ensures UpTo(segment + rest, '/') == segment
    decreases segment
  {
    if segment == "" {
      assert segment + rest == rest;
    } else {
      var s := segment + rest;
      assert s[0] == segment[0] && segment[0] in segment && s[1..] == segment[1..] + rest;
      UpToSegment(segment[1..], rest);
      assert segment == [segment[0]] + segment[1..];
    }
  }

  lemma {:induction false} TrailingStripped(segment: string, rest: string)
    requires segment != "" && '/' !in segment && (rest == "" || rest[0] == '/')
    ensures exists kept :: kept <= rest && WithoutTrailing(segment + rest, '/') == segment + kept
    decreases rest
  {
    var s := segment + rest;
    if rest == "" {
      assert s == segment && segment[|segment| - 1] in segment;
      assert WithoutTrailing(s, '/') == segment + "";
    } else if s[|s| - 1] == '/' {
      var shorter := rest[..|rest| - 1];
      assert s[..|s| - 1] == segment + shorter;
      TrailingStripped(segment, shorter);
    } else {
      assert WithoutTrailing(s, '/') == segment + rest;
    }
  }

  /** The first segment of a path is what stands, trimmed, between its leading slashes and the
      next one. */
  lemma FirstSegmentExactly(path: string, slashes: string, segment: string, rest: string)
    requires Splits(path, slashes, segment, rest)
    ensures FirstPathSegment(path) == Trim(segment)
  {
    hide Trim;
    var bare := segment + rest;
    assert bare != "" ==> bare[0] == segment[0] && segment[0] in segment;
    LeadingStripped(slashes, bare);
    if segment == "" {
      assert bare == "";
    } else {
      TrailingStripped(segment, rest);
      var kept :| kept <= rest && WithoutTrailing(bare, '/') == segment + kept;
      UpToSegment(segment, kept);
    }
    hide WithoutLeading, WithoutTrailing, UpTo, AllSlashes;
  }

  /** A trimmed host and a segment, with a slash between them when there are both. */
  predicate Joins(host: string, segment: string, candidate: string) {
    candidate == Trim(host) + (if Trim(host) != "" && segment != "" then "/" else "") + segment
  }

  lemma JoinsExactly(host: string, path: string)
    ensures Joins(host, FirstPathSegment(path), JoinHostAndSegment(host, path))
  {
    hide Trim, FirstPathSegment;
  }

  /** The four candidates of a request: its host without and with the port, each alone and
      with the first segment of the path. */
  lemma CandidatesExactly(url: Url, slashes: string, segment: string, rest: string)
    requires Splits(url.path, slashes, segment, rest)
    ensures
      var c := Candidates(url);
      && |c| == 4 && c[0] == url.hostname && c[1] == url.host
      && Joins(url.hostname, Trim(segment), c[2]) && Joins(url.host, Trim(segment), c[3])
  {
    hide Trim, FirstPathSegment, Splits, Joins, JoinHostAndSegment;
    FirstSegmentExactly(url.path, slashes, segment, rest);
    JoinsExactly(url.hostname, url.path);
    JoinsExactly(url.host, url.path);
  }

  /** inferDownstream: the best configured name, or else the host's first label. */
  function DownstreamName(lib: Library, items: seq<CompiledDownstream>, url: Option<Url>): string {
    if url.None? then ""
    else
      var best := Best(lib, items, Candidates(url.value));
      if best.name != "" then best.name
      else if UpTo(url.value.hostname, '.') != "" then UpTo(url.value.hostname, '.')
      else url.value.hostname
  }

  method InferDownstream(lib: Library, items: seq<CompiledDownstream>, url: Option<Url>) returns (name: string)
    ensures name == DownstreamName(lib, items, url)
  {
    if url.None? {
      return "";
    }
    var best := FindBest(lib, items, Candidates(url.value));
    if best.name != "" {
      return best.name;
    }
    if url.value.hostname == "" {
      return "";
    }
    var first := UpTo(url.value.hostname, '.');
    return if first != "" then first else url.value.hostname;
  }

  lemma LeaderApplies(lib: Library, items: seq<CompiledDownstream>, candidates: seq<string>)
    ensures
      var best := Best(lib, items, candidates);
      best.name != "" ==>
        exists i, h, k ::
          0 <= i < |items| && 0 <= h < |items[i].hosts| && 0 <= k < |candidates|
          && Applies(lib, items[i].hosts[h], candidates[k])
  {
    BestIsFirstMaximal(lib, items, candidates);
    hide Best, HostsScore, Applies;
    if Best(lib, items, candidates).score > 0 {
      var i :| 0 <= i < |items| && HostsScore(lib, items[i].hosts, candidates) == Best(lib, items, candidates).score;
      HostsScoreIsMax(lib, items[i].hosts, candidates);
      var h, k :| 0 <= h < |items[i].hosts| && 0 <= k < |candidates|
        && Score(lib, items[i].hosts[h], candidates[k]) == HostsScore(lib, items[i].hosts, candidates);
      assert Applies(lib, items[i].hosts[h], candidates[k]);
    }
  }

  /** When no pattern applies to any candidate, the name is the host's first label; or the whole
      hostname, when it begins with a dot. */
  lemma LabelNamesTheRest(lib: Library, items: seq<CompiledDownstream>, url: Url)
    requires forall i, h, k :: 0 <= i < |items| && 0 <= h < |items[i].hosts| && 0 <= k < |Candidates(url)| ==>
      !Applies(lib, items[i].hosts[h], Candidates(url)[k])
    ensures
      var name, hostname := DownstreamName(lib, items, Some(url)), url.hostname;
      if hostname == "" || hostname[0] == '.' then name == hostname
      else name != "" && name <= hostname && '.' !in name && (name == hostname || hostname[|name|] == '.')
  {
    LeaderApplies(lib, items, Candidates(url));
    hide Best, Candidates, Applies;
  }

  lemma NameOfBest(lib: Library, items: seq<CompiledDownstream>, url: Url)
    ensures Best(lib, items, Candidates(url)).name != "" ==>
      DownstreamName(lib, items, Some(url)) == Best(lib, items, Candidates(url)).name
  {
    hide Best, Candidates;
  }

  /** A configured downstream, if any pattern applies, is always preferred to the host's
      label; and it is the first to attain the highest score of any pattern on any of the
      four candidates. */
  lemma ConfiguredDownstreamWins(lib: Library, items: seq<CompiledDownstream>, url: Url, i: nat, h: nat, k: nat)
    requires forall j :: 0 <= j < |items| ==> items[j].name != ""
    requires i < |items| && h < |items[i].hosts| && k < |Candidates(url)|
      && Applies(lib, items[i].hosts[h], Candidates(url)[k])
    ensures
      var name, candidates := DownstreamName(lib, items, Some(url)), Candidates(url);
      exists w :: 0 <= w < |items| && items[w].name == name
        && Score(lib, items[i].hosts[h], candidates[k]) <= HostsScore(lib, items[w].hosts, candidates)
        && (forall j :: 0 <= j < |items| ==>
              HostsScore(lib, items[j].hosts, candidates) <= HostsScore(lib, items[w].hosts, candidates))
        && (forall j :: 0 <= j < w ==>
              HostsScore(lib, items[j].hosts, candidates) < HostsScore(lib, items[w].hosts, candidates))
  {
    var candidates := Candidates(url);
    var best := Best(lib, items, candidates);
    assert Score(lib, items[i].hosts[h], candidates[k]) > 0 by {
      hide Trim, Lower, Literals, Candidates;
    }
    BestIsFirstMaximal(lib, items, candidates);
    HostsScoreIsMax(lib, items[i].hosts, candidates);
    NameOfBest(lib, items, url);
    hide *;
  }

  // ----- requests for which the documented precedence fails -----

  function Letters(n: nat): (s: string)
    ensures |s| == n && forall i :: 0 <= i < n ==> s[i] == 'a'
  {
    seq(n, _ => 'a')
  }

  lemma {:induction false} CountAbsent(s: string, c: char)
    requires c !in s
    ensures CountOf(s, c) == 0
  {
    if s != "" {
      CountAbsent(s[..|s| - 1], c);
    }
  }

  lemma LiteralsOf(s: string)
    requires '*' !in s && '?' !in s
    ensures Literals(s) == |s| && Literals(s + "*") == |s|
  {
    CountAbsent(s, '*');
    CountAbsent(s, '?');
    assert (s + "*")[..|s|] == s;
  }

  /** Trimming and folding leave it alone. */
  predicate Clean(s: string) {
    Trim(s) == s && Lower(s) == s
  }

  lemma PlainIsClean(s: string)
    requires forall i :: 0 <= i < |s| ==> !IsSpace(s[i]) && LowerChar(s[i]) == s[i]
    ensures Clean(s)
  {
    TrimOfTrimmed(s);
    hide Trim, IsSpace, LowerChar;
    assert Lower(s) == s;
  }

  lemma AsciiIsClean(s: string)
    requires forall i :: 0 <= i < |s| ==>
      s[i] == 'a' || s[i] == 'x' || s[i] == '*' || s[i] == '/' || s[i] == '[' || s[i] == ']'
    ensures Clean(s)
  {
    PlainIsClean(s);
  }

  lemma ScoreOfClean(lib: Library, pattern: string, candidate: string)
    requires Clean(pattern) && pattern != "" && Clean(candidate) && candidate != ""
    ensures IsExact(pattern, candidate) <==> pattern == candidate
    ensures pattern == candidate ==>
      && Applies(lib, pattern, candidate)
      && Score(lib, pattern, candidate) == 1000 + Literals(pattern) + SegmentBonus(pattern)
    ensures pattern != candidate ==> Score(lib, pattern, candidate) <= 100 + Literals(pattern) + SegmentBonus(pattern)
    ensures pattern != candidate && lib.glob(pattern, candidate) == Some(true) ==>
      && Applies(lib, pattern, candidate)
      && Score(lib, pattern, candidate) == 100 + Literals(pattern) + SegmentBonus(pattern)
  {
    hide Trim, Lower, Literals, SegmentBonus;
  }

  lemma ScoreOfPattern(lib: Library, pattern: string, c: string, d: string)
    ensures Score(lib, pattern, c) <= Score(lib, pattern, d) ==>
      HostsScore(lib, [pattern], [c, c, d, d]) == Score(lib, pattern, d)
    ensures Score(lib, pattern, d) <= Score(lib, pattern, c) ==>
      HostsScore(lib, [pattern], [c, c, d, d]) == Score(lib, pattern, c)
  {
    hide Score;
    var all := [c, c, d, d];
    assert [pattern][..0] == [];
    assert all[..3] == [c, c, d] && [c, c, d][..2] == [c, c] && [c, c][..1] == [c] && [c][..0] == [];
    assert PatternScore(lib, pattern, [c]) == Score(lib, pattern, c);
    assert PatternScore(lib, pattern, [c, c]) == Score(lib, pattern, c);
    assert PatternScore(lib, pattern, [c, c, d]) == Max(Score(lib, pattern, c), Score(lib, pattern, d));
  }

  lemma SecondIsBest(lib: Library, first: CompiledDownstream, second: CompiledDownstream, url: Url)
    requires second.name != ""
    requires HostsScore(lib, first.hosts, Candidates(url)) < HostsScore(lib, second.hosts, Candidates(url))
    ensures DownstreamName(lib, [first, second], Some(url)) == second.name
  {
    hide HostsScore, Candidates, UpTo;
    assert [first, second][..1] == [first] && [first][..0] == [];
    assert Best(lib, [first], Candidates(url)).score <= HostsScore(lib, first.hosts, Candidates(url));
  }

  /** Of two downstreams with one pattern each, the second leads if some candidate gives it a
      higher score than any gives the first. */
  lemma SecondPatternLeads(lib: Library, p: string, q: string, second: string, url: Url, c: string, d: string, a: nat)
    requires Candidates(url) == [c, c, d, d] && second != ""
    requires Score(lib, p, c) <= a && Score(lib, p, d) <= a && (Score(lib, q, c) > a || Score(lib, q, d) > a)
    ensures
      DownstreamName(lib, [CompiledDownstream("first", [p]), CompiledDownstream(second, [q])], Some(url)) == second
  {
    hide *;
    ScoreOfPattern(lib, p, c, d);
    ScoreOfPattern(lib, q, c, d);
    SecondIsBest(lib, CompiledDownstream("first", [p]), CompiledDownstream(second, [q]), url);
  }

  lemma GlobLeads(lib: Library, exact: string, glob: string, url: Url)
    requires Clean(exact) && Clean(glob) && exact != "" && glob != "" && glob != exact
    requires Literals(glob) + SegmentBonus(glob) > 900 + Literals(exact) + SegmentBonus(exact)
    requires Candidates(url) == [exact, exact, exact, exact] && lib.glob(glob, exact) == Some(true)
    ensures IsExact(exact, exact) && Score(lib, exact, exact) == 1000 + Literals(exact) + SegmentBonus(exact)
    ensures Applies(lib, glob, exact) && !IsExact(glob, exact)
    ensures Score(lib, glob, exact) == 100 + Literals(glob) + SegmentBonus(glob)
    ensures
      DownstreamName(lib, [CompiledDownstream("first", [exact]), CompiledDownstream("glob", [glob])], Some(url)) ==
        "glob"
  {
    ScoreOfClean(lib, exact, exact);
    ScoreOfClean(lib, glob, exact);
    SecondPatternLeads(lib, exact, glob, "glob", url, exact, exact, Score(lib, exact, exact));
    hide *;
  }

  lemma ClassShape(n: nat)
    ensures SegmentBonus("[" + Letters(n) + "]") == 0 && SegmentBonus("a") == 0
    ensures "[" + Letters(n) + "]" != "a" && "[" + Letters(n) + "]" != "" && "a" != ""
  {
    assert |"a"| == 1 && |"[" + Letters(n) + "]"| == n + 2;
  }

  lemma ClassIsClean(n: nat)
    ensures Clean("[" + Letters(n) + "]") && Literals("[" + Letters(n) + "]") == n + 2
    ensures Clean("a") && Literals("a") == 1
  {
    hide Clean, Literals;
    var s := "[" + Letters(n) + "]";
    assert forall i :: 0 <= i < |s| ==> s[i] == '[' || s[i] == 'a' || s[i] == ']';
    hide Letters;
    AsciiIsClean(s);
    AsciiIsClean("a");
    LiteralsOf(s);
    LiteralsOf("a");
  }

  lemma StripSlash()
    ensures WithoutLeading("/x", '/') == "x" && WithoutTrailing("x", '/') == "x" && UpTo("x", '/') == "x"
    ensures WithoutLeading("", '/') == "" && WithoutTrailing("", '/') == "" && UpTo("", '/') == ""
  {
    assert "/x"[1..] == "x" && "x"[1..] == "";
  }

  lemma SegmentOf(path: string, segment: string)
    requires (path == "" && segment == "") || (path == "/x" && segment == "x")
    ensures FirstPathSegment(path) == segment
  {
    StripSlash();
    TrimOfTrimmed(path);
    TrimOfTrimmed(segment);
    hide Trim, WithoutLeading, WithoutTrailing, UpTo;
  }

  lemma Joined(host: string, path: string)
    requires Trim(host) == host && host != ""
    ensures JoinHostAndSegment(host, path) ==
      if FirstPathSegment(path) == "" then host else host + "/" + FirstPathSegment(path)
  {
    hide Trim, FirstPathSegment;
  }

  lemma CandidatesOf(host: string, path: string)
    requires Clean(host) && host != ""
    ensures
      var joined := if FirstPathSegment(path) == "" then host else host + "/" + FirstPathSegment(path);
      Candidates(Url(host, host, path)) == [host, host, joined, joined]
  {
    Joined(host, path);
    hide JoinHostAndSegment, FirstPathSegment, Trim;
  }

  /** For host "a", a character class of 903 letters precedes the exact host "a", though that is
      configured first. */
  lemma GlobBeatsExactHost(lib: Library)
    requires lib.glob("[" + Letters(903) + "]", "a") == Some(true)
    ensures
      var glob, url := "[" + Letters(903) + "]", Url("a", "a", "");
      && Candidates(url) == ["a", "a", "a", "a"]
      && IsExact("a", "a") && Score(lib, "a", "a") == 1001
      && Applies(lib, glob, "a") && !IsExact(glob, "a") && Score(lib, glob, "a") == 1005
      && DownstreamName(lib, [CompiledDownstream("first", ["a"]), CompiledDownstream("glob", [glob])], Some(url)) ==
           "glob"
  {
    hide *;
    var glob, url := "[" + Letters(903) + "]", Url("a", "a", "");
    ClassShape(903);
    ClassIsClean(903);
    SegmentOf("", "");
    CandidatesOf("a", "");
    GlobLeads(lib, "a", glob, url);
  }

  lemma HostLeads(lib: Library, segment: string, glob: string, url: Url, host: string, long: string)
    requires Clean(segment) && Clean(glob) && Clean(host) && Clean(long)
    requires segment != "" && glob != "" && host != "" && long != ""
    requires segment != host && segment != long && glob != host && glob != long
    requires Literals(glob) + SegmentBonus(glob) > Literals(segment) + SegmentBonus(segment)
    requires Candidates(url) == [host, host, long, long]
    requires lib.glob(glob, host) == Some(true) && lib.glob(segment, long) == Some(true)
    ensures Applies(lib, segment, long) && Score(lib, segment, long) == 100 + Literals(segment) + SegmentBonus(segment)
    ensures Applies(lib, glob, host) && Score(lib, glob, host) == 100 + Literals(glob) + SegmentBonus(glob)
    ensures
      DownstreamName(lib, [CompiledDownstream("first", [segment]), CompiledDownstream("host", [glob])], Some(url)) ==
        "host"
  {
    ScoreOfClean(lib, segment, host);
    ScoreOfClean(lib, segment, long);
    ScoreOfClean(lib, glob, host);
    SecondPatternLeads(lib, segment, glob, "host", url, host, long, Score(lib, segment, long));
    hide *;
  }

  lemma LiteralsOfSegment()
    ensures Literals("*/x") == 2
  {
    assert "*/x"[..2] == "*/" && "*/"[..1] == "*" && "*"[..0] == "";
  }

  lemma SegmentsAreClean(n: nat)
    ensures Clean(Letters(n)) && Clean(Letters(n) + "*") && Clean(Letters(n) + "/x") && Clean("*/x")
    ensures Literals(Letters(n) + "*") == n && Literals("*/x") == 2
  {
    var s := Letters(n);
    hide Clean, Letters, Literals;
    AsciiIsClean(s);
    AsciiIsClean(s + "*");
    AsciiIsClean(s + "/x");
    AsciiIsClean("*/x");
    LiteralsOf(s);
    LiteralsOfSegment();
  }

  lemma SegmentLengths(n: nat)
    requires n > 3
    ensures Letters(n) != "" && Letters(n) + "*" != "" && Letters(n) + "/x" != "" && "*/x" != ""
    ensures "*/x" != Letters(n) && "*/x" != Letters(n) + "/x"
    ensures Letters(n) + "*" != Letters(n) && Letters(n) + "*" != Letters(n) + "/x"
    ensures SegmentBonus("*/x") == 200 && SegmentBonus(Letters(n) + "*") == 0
    ensures Letters(n) + "/" + "x" == Letters(n) + "/x"
  {
    assert "*/x"[1] == '/';
    assert |"*/x"| < |Letters(n)| < |Letters(n) + "*"| < |Letters(n) + "/x"|;
  }

  /** For a host of 204 letters and path "/x", a host-only glob precedes the pattern with the path
      segment, though that is configured first. */
  lemma HostBeatsSegment(lib: Library)
    requires lib.glob(Letters(204) + "*", Letters(204)) == Some(true)
    requires lib.glob("*/x", Letters(204) + "/x") == Some(true)
    ensures
      var host := Letters(204);
      var url := Url(host, host, "/x");
      && Candidates(url) == [host, host, host + "/x", host + "/x"]
      && Applies(lib, "*/x", host + "/x") && Score(lib, "*/x", host + "/x") == 302
      && Applies(lib, host + "*", host) && Score(lib, host + "*", host) == 304
      && DownstreamName(lib, [CompiledDownstream("first", ["*/x"]), CompiledDownstream("host", [host + "*"])],
                        Some(url)) == "host"
  {
    hide *;
    var host := Letters(204);
    SegmentOf("/x", "x");
    SegmentsAreClean(204);
    SegmentLengths(204);
    CandidatesOf(host, "/x");
    HostLeads(lib, "*/x", host + "*", Url(host, host, "/x"), host, host + "/x");
  }

  // ----- matching -----

  predicate MatchesExactly(values: seq<string>, value: string) {
    values == [] || exists i :: 0 <= i < |values| && EqualFold(values[i], value)
  }

  predicate GlobMatches(lib: Library, pattern: string, value: string) {
    lib.glob(Lower(pattern), Lower(value)) == Some(true)
  }

  predicate MatchesHost(lib: Library, pattern: string, value: string) {
    pattern == "*" || GlobMatches(lib, pattern, value)
  }

  predicate MatchesHosts(lib: Library, patterns: seq<string>, value: string) {
    patterns == [] || exists i :: 0 <= i < |patterns| && MatchesHost(lib, patterns[i], value)
  }

  predicate MatchesPaths(lib: Library, patterns: seq<string>, value: string) {
    patterns == [] || exists i :: 0 <= i < |patterns| && GlobMatches(lib, patterns[i], value)
  }

  predicate OperationMatches(lib: Library, o: CompiledOperation, httpMethod: string, url: Url, downstream: string) {
    && MatchesExactly(o.methods, httpMethod)
    && (MatchesHosts(lib, o.hosts, url.hostname) || MatchesHosts(lib, o.hosts, url.host))
    && MatchesPaths(lib, o.paths, url.path)
    && MatchesExactly(o.downstreams, downstream)
  }

  function OperationMatcher(lib: Library, httpMethod: string, url: Url, downstream: string): CompiledOperation -> bool {
    o => OperationMatches(lib, o, httpMethod, url, downstream)
  }

  function DefaultOperation(httpMethod: string, path: string): string {
    Trim(Upper(Trim(httpMethod)) + " " + (if Trim(path) == "" then "/" else Trim(path)))
  }

  lemma BlankFirst(s: string)
    requires s != "" && !IsSpace(s[0]) && !IsSpace(s[|s| - 1])
    ensures Trim(" " + s) == s
  {
    assert (" " + s)[1..] == s;
    assert TrimLeft(" " + s) == s;
  }

  lemma MethodAndPath(trimmed: string, named: string)
    requires trimmed == "" || !IsSpace(trimmed[0])
    requires named != "" && !IsSpace(named[0]) && !IsSpace(named[|named| - 1])
    ensures Trim(Upper(trimmed) + " " + named) == if trimmed == "" then named else Upper(trimmed) + " " + named
  {
    hide Trim;
    var name := Upper(trimmed) + " " + named;
    if trimmed == "" {
      BlankFirst(named);
      assert name == " " + named;
    } else {
      assert name[0] == Upper(trimmed)[0] && name[|name| - 1] == named[|named| - 1];
      TrimOfTrimmed(name);
    }
  }

  /** The default name is the method in upper case and the path, or a slash. */
  lemma DefaultOperationExactly(httpMethod: string, path: string)
    ensures
      var named := if Trim(path) == "" then "/" else Trim(path);
      DefaultOperation(httpMethod, path) ==
        if Trim(httpMethod) == "" then named else Upper(Trim(httpMethod)) + " " + named
  {
    hide Trim, Upper;
    MethodAndPath(Trim(httpMethod), if Trim(path) == "" then "/" else Trim(path));
  }

  /** inferOperation. */
  function OperationName(lib: Library, items: seq<CompiledOperation>, httpMethod: string, url: Option<Url>,
      downstream: string): string
  {
    if url.None? then ""
    else
      var found := FirstMatch(items, OperationMatcher(lib, Upper(httpMethod), url.value, downstream));
      if found.Some? then found.value.name else DefaultOperation(Upper(httpMethod), url.value.path)
  }

  method InferOperation(lib: Library, items: seq<CompiledOperation>, httpMethod: string, url: Option<Url>,
      downstream: string)
    returns (name: string)
    ensures name == OperationName(lib, items, httpMethod, url, downstream)
  {
    hide OperationMatches;
    if url.None? {
      return "";
    }
    var matches := OperationMatcher(lib, Upper(httpMethod), url.value, downstream);
    for i := 0 to |items|
      invariant FirstMatch(items, matches) == FirstMatch(items[i..], matches)
    {
      if OperationMatches(lib, items[i], Upper(httpMethod), url.value, downstream) {
        return items[i].name;
      }
      assert items[i..][1..] == items[i + 1..];
    }
    return DefaultOperation(Upper(httpMethod), url.value.path);
  }

  /** The rank of an operation of the file. */
  function RankOfOperation(o: Operation): Rank {
    Rank(o.priority, CompileOperation(o).specificity)
  }

  function FileOperationMatcher(lib: Library, httpMethod: string, url: Url, downstream: string): Operation -> bool {
    o => OperationMatches(lib, CompileOperation(o), Upper(httpMethod), url, downstream)
  }

  lemma BestOperation(lib: Library, items: seq<Operation>, httpMethod: string, url: Url, downstream: string, i: int)
    requires IsBest(OperationsOf(items), OperationRank, OperationMatcher(lib, Upper(httpMethod), url, downstream), i)
    ensures IsBest(items, RankOfOperation, FileOperationMatcher(lib, httpMethod, url, downstream), i)
  {
    var compiled, matches := OperationsOf(items), OperationMatcher(lib, Upper(httpMethod), url, downstream);
    hide OperationMatches, Trim, Patterns, Uppered, Precedes, Upper;
    forall j | 0 <= j < |items|
      ensures matches(compiled[j]) == FileOperationMatcher(lib, httpMethod, url, downstream)(items[j])
      ensures OperationRank(compiled[j]) == RankOfOperation(items[j])
    {
    }
  }

  lemma SameMatches(lib: Library, items: seq<Operation>, httpMethod: string, url: Url, downstream: string)
    ensures SomeMatch(items, FileOperationMatcher(lib, httpMethod, url, downstream)) <==>
      SomeMatch(OperationsOf(items), OperationMatcher(lib, Upper(httpMethod), url, downstream))
  {
    var compiled, matches := OperationsOf(items), OperationMatcher(lib, Upper(httpMethod), url, downstream);
    hide OperationMatches, Trim, Patterns, Uppered, Upper;
    if i :| 0 <= i < |compiled| && matches(compiled[i]) {
      assert FileOperationMatcher(lib, httpMethod, url, downstream)(items[i]);
    }
  }

  /** Over a configured list, sorted as it is compiled, the operation of a request is the
      matching one with the highest priority, then the most dimensions, then the earliest
      place; the default name is used only when none matches. */
  lemma OperationIsBest(lib: Library, items: seq<Operation>, httpMethod: string, url: Url, downstream: string)
    ensures
      var matches := FileOperationMatcher(lib, httpMethod, url, downstream);
      var name := OperationName(lib, StableSort(OperationsOf(items), OperationRank), httpMethod, Some(url), downstream);
      if SomeMatch(items, matches)
      then exists i :: IsBest(items, RankOfOperation, matches, i) && name == Trim(items[i].name)
      else name == DefaultOperation(Upper(httpMethod), url.path)
  {
    var compiled, matches := OperationsOf(items), OperationMatcher(lib, Upper(httpMethod), url, downstream);
    hide OperationMatches, DefaultOperation, StableSort, FirstMatch, Precedes, Trim, Patterns, Uppered;
    ScanPicksBest(compiled, OperationRank, matches);
    var found := FirstMatch(StableSort(compiled, OperationRank), matches);
    if found.Some? {
      var i :| IsBest(compiled, OperationRank, matches, i) && compiled[i] == found.value;
      assert compiled[i].name == Trim(items[i].name);
      BestOperation(lib, items, httpMethod, url, downstream, i);
    }
    SameMatches(lib, items, httpMethod, url, downstream);
    hide SomeMatch, OperationMatcher;
  }
}
