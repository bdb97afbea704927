/** Routing keys against topic patterns (internal/routing/domain/matcher.go). */
module Matcher {
  import opened Ranging

  /** path.Match on one segment; what it accepts is left open. */
  type Glob = (string, string) -> bool

  // ---------------------------------------------------------------- what a pattern means

  /** What one pattern segment takes of the key. */
  predicate Takes(segment: string, piece: seq<string>, glob: Glob) {
    if segment == "#" then true
    else if segment == "*" then |piece| == 1
    else |piece| == 1 && glob(segment, piece[0])
  }

  function Concat(pieces: seq<seq<string>>): seq<string> {
    if pieces == [] then [] else pieces[0] + Concat(pieces[1..])
  }

  /** The key falls apart into consecutive pieces, one for each pattern segment. */
  ghost predicate SplitsInto(pattern: seq<string>, key: seq<string>, pieces: seq<seq<string>>, glob: Glob) {
    && |pieces| == |pattern|
    && Concat(pieces) == key
    && forall i :: 0 <= i < |pattern| ==> Takes(pattern[i], pieces[i], glob)
  }

  ghost predicate Matches(pattern: seq<string>, key: seq<string>, glob: Glob) {
    exists pieces :: SplitsInto(pattern, key, pieces, glob)
  }

  lemma {:induction false} MatchesEmpty(key: seq<string>, glob: Glob)
    ensures Matches([], key, glob) <==> key == []
  {
    if key == [] {
      assert SplitsInto([], key, [], glob);
    }
  }

  /** A key matches when its first piece suits the first segment and the rest matches the rest. */
  lemma {:induction false} MatchesFrom(pattern: seq<string>, key: seq<string>, k: nat, glob: Glob)
    requires pattern != [] && k <= |key|
    requires Takes(pattern[0], key[..k], glob) && Matches(pattern[1..], key[k..], glob)
    ensures Matches(pattern, key, glob)
  {
    var rest :| SplitsInto(pattern[1..], key[k..], rest, glob);
    var pieces := [key[..k]] + rest;
    assert pieces[1..] == rest;
    forall i | 0 < i < |pattern|
      ensures Takes(pattern[i], pieces[i], glob)
    {
      assert Takes(pattern[1..][i - 1], rest[i - 1], glob);
    }
    assert SplitsInto(pattern, key, pieces, glob);
  }

  lemma {:induction false} MatchesInto(pattern: seq<string>, key: seq<string>, glob: Glob) returns (k: nat)
    requires pattern != [] && Matches(pattern, key, glob)
    ensures k <= |key| && Takes(pattern[0], key[..k], glob) && Matches(pattern[1..], key[k..], glob)
  {
    var pieces :| SplitsInto(pattern, key, pieces, glob);
    k := |pieces[0]|;
    assert key == pieces[0] + Concat(pieces[1..]);
    assert key[..k] == pieces[0] && key[k..] == Concat(pieces[1..]);
    forall i | 0 <= i < |pattern| - 1
      ensures Takes(pattern[1..][i], pieces[1..][i], glob)
    {
      assert Takes(pattern[i + 1], pieces[i + 1], glob);
    }
    assert SplitsInto(pattern[1..], key[k..], pieces[1..], glob);
  }

  /** A segment that takes exactly one part: it must suit the first, and the rest must match the rest. */
  lemma {:induction false} MatchesOne(pattern: seq<string>, key: seq<string>, glob: Glob)
    requires pattern != [] && pattern[0] != "#"
    ensures Matches(pattern, key, glob) <==>
            key != [] && Takes(pattern[0], key[..1], glob) && Matches(pattern[1..], key[1..], glob)
  {
    if key != [] && Takes(pattern[0], key[..1], glob) && Matches(pattern[1..], key[1..], glob) {
      MatchesFrom(pattern, key, 1, glob);
    }
    if Matches(pattern, key, glob) {
      var k := MatchesInto(pattern, key, glob);
    }
  }

  lemma {:induction false} MatchesHash(pattern: seq<string>, key: seq<string>, glob: Glob)
    requires pattern != [] && pattern[0] == "#"
    ensures Matches(pattern, key, glob) <==> exists k :: 0 <= k <= |key| && Matches(pattern[1..], key[k..], glob)
  {
    if k :| 0 <= k <= |key| && Matches(pattern[1..], key[k..], glob) {
      MatchesFrom(pattern, key, k, glob);
    }
    if Matches(pattern, key, glob) {
      var k := MatchesInto(pattern, key, glob);
    }
  }

  /** What one segment alone matches: `#` any number of parts, `*` any one, another one that its glob accepts. */
  lemma {:induction false} MatchesSegment(segment: string, key: seq<string>, glob: Glob)
    ensures Matches([segment], key, glob) <==>
            segment == "#" || (|key| == 1 && (segment == "*" || glob(segment, key[0])))
  {
    hide Matches;
    assert [segment][1..] == [];
    if segment == "#" {
      MatchesHash([segment], key, glob);
      MatchesEmpty(key[|key|..], glob);
    } else {
      MatchesOne([segment], key, glob);
      if key != [] {
        MatchesEmpty(key[1..], glob);
      }
    }
  }

  /** A pattern in two parts matches the keys that fall apart into a match of each. */
  lemma {:induction false} MatchesAppend(p: seq<string>, q: seq<string>, key: seq<string>, glob: Glob)
    ensures Matches(p + q, key, glob) <==>
            exists n :: 0 <= n <= |key| && Matches(p, key[..n], glob) && Matches(q, key[n..], glob)
    decreases |p|
  {
    hide Matches, Takes;
    if p == [] {
      assert p + q == q && key[..0] == [] && key[0..] == key;
      MatchesEmpty(key[..0], glob);
      forall n | 0 <= n <= |key| && Matches(p, key[..n], glob)
        ensures n == 0
      {
        MatchesEmpty(key[..n], glob);
      }
    } else {
      assert (p + q)[1..] == p[1..] + q && (p + q)[0] == p[0];
      if Matches(p + q, key, glob) {
        var k := MatchesInto(p + q, key, glob);
        MatchesAppend(p[1..], q, key[k..], glob);
        var n :| 0 <= n <= |key[k..]| && Matches(p[1..], key[k..][..n], glob) && Matches(q, key[k..][n..], glob);
        assert key[..k + n][..k] == key[..k] && key[..k + n][k..] == key[k..][..n] && key[k + n..] == key[k..][n..];
        MatchesFrom(p, key[..k + n], k, glob);
        assert Matches(p, key[..k + n], glob) && Matches(q, key[k + n..], glob);
      }
      if n :| 0 <= n <= |key| && Matches(p, key[..n], glob) && Matches(q, key[n..], glob) {
        var k := MatchesInto(p, key[..n], glob);
        assert key[..n][..k] == key[..k] && key[..n][k..] == key[k..][..n - k] && key[n..] == key[k..][n - k..];
        MatchesAppend(p[1..], q, key[k..], glob);
        MatchesFrom(p + q, key, k, glob);
      }
    }
  }

  // ---------------------------------------------------------------- the matcher

  /** The backtracking search answers exactly what the pattern means, on every pattern and key. */
  method MatchParts(pattern: seq<string>, key: seq<string>, glob: Glob) returns (r: bool)
    ensures r <==> Matches(pattern, key, glob)
    decreases |pattern|
  {
    hide Matches, Takes;
    var p, k := pattern, key;
    while |p| > 0
      invariant |p| <= |pattern|
      invariant Matches(p, k, glob) <==> Matches(pattern, key, glob)
      decreases |p|
    {
      if p[0] == "#" {
        MatchesHash(p, k, glob);
        if |p| == 1 {
          MatchesEmpty(k[|k|..], glob);
          assert p[1..] == [];
          return true;
        }
        for i := 0 to |k| + 1
          invariant forall j :: 0 <= j < i ==> !Matches(p[1..], k[j..], glob)
        {
          var found := MatchParts(p[1..], k[i..], glob);
          if found {
            return true;
          }
        }
        return false;
      } else if p[0] == "*" {
        MatchesOne(p, k, glob);
        if |k| == 0 {
          return false;
        }
        TakesOne(p[0], k, glob);
        p, k := p[1..], k[1..];
      } else {
        MatchesOne(p, k, glob);
        if |k| == 0 {
          return false;
        }
        TakesOne(p[0], k, glob);
        if !glob(p[0], k[0]) {
          return false;
        }
        p, k := p[1..], k[1..];
      }
    }
    MatchesEmpty(k, glob);
    assert p == [];
    r := |k| == 0;
  }

  lemma TakesOne(segment: string, key: seq<string>, glob: Glob)
    requires key != [] && segment != "#"
    ensures Takes(segment, key[..1], glob) <==> segment == "*" || glob(segment, key[0])
  {}

  // ---------------------------------------------------------------- dotted keys

  /** strings.Split(s, "."): always at least one part. */
  function Split(s: string): (parts: seq<string>)
    ensures parts != []
  {
    if s == "" then [""]
    else
      var rest := Split(s[1..]);
      if s[0] == '.' then [""] + rest else [[s[0]] + rest[0]] + rest[1..]
  }

  function Join(parts: seq<string>): string
    requires parts != []
  {
    if |parts| == 1 then parts[0] else parts[0] + "." + Join(parts[1..])
  }

  /** Split is what Join undoes, and leaves no dot inside a part. */
  lemma {:induction false} SplitJoin(s: string)
    ensures Join(Split(s)) == s
    ensures forall p :: p in Split(s) ==> '.' !in p
  {
    if s != "" {
      SplitJoin(s[1..]);
      var rest := Split(s[1..]);
      if s[0] != '.' {
        assert Split(s)[1..] == rest[1..];
      } else {
        assert Split(s)[1..] == rest;
      }
      assert s == [s[0]] + s[1..];
    }
  }

  /** Parts without dots are what Split finds in their join: Split has no other choice. */
  lemma {:induction false} JoinSplit(parts: seq<string>)
    requires parts != [] && forall p :: p in parts ==> '.' !in p
    ensures Split(Join(parts)) == parts
    decreases |parts|, |parts[0]|
  {
    var s := Join(parts);
    if parts[0] != "" {
      var shorter := [parts[0][1..]] + parts[1..];
      assert s[1..] == Join(shorter) && s[0] == parts[0][0];
      assert parts[0][0] in parts[0];
      assert forall c :: c in shorter[0] ==> c in parts[0];
      JoinSplit(shorter);
      assert [s[0]] + shorter[0] == parts[0] && shorter[1..] == parts[1..];
      assert parts == [parts[0]] + parts[1..];
    } else if |parts| > 1 {
      assert s[1..] == Join(parts[1..]) && s[0] == '.';
      JoinSplit(parts[1..]);
      assert parts == [""] + parts[1..];
    } else {
      assert parts == [""];
    }
  }

  /** The meaning of a whole pattern; the empty one leaves the key free. */
  ghost predicate TopicMatches(pattern: string, key: string, glob: Glob) {
    pattern == "" || Matches(Split(pattern), Split(key), glob)
  }

  method TopicMatch(pattern: string, key: string, glob: Glob) returns (r: bool)
    ensures r <==> TopicMatches(pattern, key, glob)
    ensures pattern == "" || pattern == "#" ==> r
  {
    hide Matches;
    if pattern == "#" || pattern == "" {
      if pattern == "#" {
        HashAlone(key, glob);
      }
      return true;
    }
    var pp := Split(pattern);
    var kp := Split(key);
    r := MatchParts(pp, kp, glob);
  }

  lemma {:induction false} HashAlone(key: string, glob: Glob)
    ensures Matches(Split("#"), Split(key), glob)
  {
    var k := Split(key);
    JoinSplit(["#"]);
    MatchesEmpty(k[|k|..], glob);
    MatchesHash(["#"], k, glob);
    assert ["#"][1..] == [];
  }

  /** Every header the filter names is there with the wanted value. */
  predicate FilterAccepts(filter: map<string, string>, headers: map<string, string>) {
    forall k :: k in filter ==> k in headers && headers[k] == filter[k]
  }

  ghost predicate Accepts(key: string, headers: map<string, string>, pattern: string,
                          filter: map<string, string>, glob: Glob) {
    TopicMatches(pattern, key, glob) && FilterAccepts(filter, headers)
  }

  method Match(key: string, headers: map<string, string>, pattern: string, filter: map<string, string>, glob: Glob)
    returns (r: bool)
    ensures r <==> Accepts(key, headers, pattern, filter, glob)
  {
    hide TopicMatches, Distinct;
    EmptyPattern(key, glob);
    if pattern != "" {
      var topic := TopicMatch(pattern, key, glob);
      if !topic {
        return false;
      }
    }
    var order := Range(filter.Keys);
    for i := 0 to |order|
      invariant forall j :: 0 <= j < i ==> order[j] in headers && headers[order[j]] == filter[order[j]]
    {
      var k := order[i];
      if k !in headers || headers[k] != filter[k] {
        return false;
      }
    }
    r := true;
  }

  lemma EmptyPattern(key: string, glob: Glob)
    ensures TopicMatches("", key, glob)
  {}
}
