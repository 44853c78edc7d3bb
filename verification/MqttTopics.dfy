/** Topic filters and the acknowledgement topics built for clients. */
module MqttTopics {
  import opened Common
  import opened Text

  // ---------------------------------------------------------------- the relation the code computes

  /** A filter level that is not `#` accepts a topic level. */
  predicate LevelOk(f: string, t: string) {
    f != "#" && (f == "+" || f == t)
  }

  /** All levels are accepted one by one. */
  predicate SameLevels(fl: seq<string>, tl: seq<string>) {
    |fl| == |tl| && forall i :: 0 <= i < |fl| ==> LevelOk(fl[i], tl[i])
  }

  /** A final `#` takes all remaining levels, and at least one. */
  predicate OpenEnded(fl: seq<string>, tl: seq<string>) {
    && fl != [] && fl[|fl| - 1] == "#" && |fl| <= |tl|
    && forall i :: 0 <= i < |fl| - 1 ==> LevelOk(fl[i], tl[i])
  }

  predicate LevelsMatch(fl: seq<string>, tl: seq<string>) {
    SameLevels(fl, tl) || OpenEnded(fl, tl)
  }

  /** The recursion of the loop: level against level. */
  predicate Walk(fl: seq<string>, tl: seq<string>) {
    if fl == [] || tl == [] then fl == tl
    else if fl[0] == "#" then |fl| == 1
    else (fl[0] == "+" || fl[0] == tl[0]) && Walk(fl[1..], tl[1..])
  }

  lemma {:induction false} WalkIsLevelsMatch(fl: seq<string>, tl: seq<string>)
    requires fl != [] && tl != []
    ensures Walk(fl, tl) <==> LevelsMatch(fl, tl)
  {
    if LevelOk(fl[0], tl[0]) && |fl| > 1 && |tl| > 1 {
      WalkIsLevelsMatch(fl[1..], tl[1..]);
      TailLevels(fl, tl);
    }
  }

  lemma {:induction false} TailLevels(fl: seq<string>, tl: seq<string>)
    requires |fl| > 1 && |tl| > 1 && LevelOk(fl[0], tl[0])
    ensures SameLevels(fl, tl) <==> SameLevels(fl[1..], tl[1..])
    ensures OpenEnded(fl, tl) <==> OpenEnded(fl[1..], tl[1..])
  {
    if SameLevels(fl[1..], tl[1..]) {
      forall i | 0 <= i < |fl| ensures LevelOk(fl[i], tl[i]) {
        assert i > 0 ==> LevelOk(fl[1..][i - 1], tl[1..][i - 1]);
      }
    }
    if OpenEnded(fl[1..], tl[1..]) {
      forall i | 0 <= i < |fl| - 1 ensures LevelOk(fl[i], tl[i]) {
        assert i > 0 ==> LevelOk(fl[1..][i - 1], tl[1..][i - 1]);
      }
    }
  }

  /** The filter matches the topic, level by level. */
  predicate TopicMatch(filter: string, topic: string) {
    LevelsMatch(Split(filter, '/'), Split(topic, '/'))
  }

  /** The walk on the texts themselves; f and t are where the two shortened views begin. */
  predicate WalkFrom(filter: string, f: nat, topic: string, t: nat)
    requires f <= |filter| && t <= |topic|
    decreases |filter| - f
  {
    var fs, ts := Find(filter, '/', f), Find(topic, '/', t);
    var fl, tl := filter[f..fs], topic[t..ts];
    if fl == "#" then fs == |filter|
    else if fl != "+" && fl != tl then false
    else if fs == |filter| || ts == |topic| then fs == |filter| && ts == |topic|
    else WalkFrom(filter, fs + 1, topic, ts + 1)
  }

  /** What a walk does with the first levels, whatever the rest of it is. */
  predicate WalksOne(walk: (seq<string>, seq<string>) -> bool, f: string, fl: seq<string>, t: string, tl: seq<string>) {
    walk([f] + fl, [t] + tl) <==>
      if f == "#" then fl == [] else (f == "+" || f == t) && if fl == [] || tl == [] then fl == tl else walk(fl, tl)
  }

  ghost predicate WalksLevels(walk: (seq<string>, seq<string>) -> bool) {
    forall f, fl, t, tl :: WalksOne(walk, f, fl, t, tl)
  }

  lemma {:induction false} WalkWalksLevels()
    ensures WalksLevels(Walk)
  {
    forall f, fl, t, tl ensures WalksOne(Walk, f, fl, t, tl) {
      assert ([f] + fl)[1..] == fl && ([t] + tl)[1..] == tl;
    }
  }

  /** One pass, given the first level of each text and the levels after it. */
  lemma {:induction false} WalkFromStep(filter: string, f: nat, topic: string, t: nat)
    requires f <= |filter| && t <= |topic|
    ensures var fs, ts := Find(filter, '/', f), Find(topic, '/', t);
            WalkFrom(filter, f, topic, t) <==>
              if filter[f..fs] == "#" then fs == |filter|
              else (filter[f..fs] == "+" || filter[f..fs] == topic[t..ts])
                   && if fs == |filter| || ts == |topic| then fs == |filter| && ts == |topic|
                      else WalkFrom(filter, fs + 1, topic, ts + 1)
  {
  }

  lemma {:induction false} AfterPartIsEmpty(s: string, begin: nat)
    requires begin <= |s|
    ensures AfterPart(s, '/', begin) == [] <==> Find(s, '/', begin) == |s|
  {
  }

  lemma {:induction false} WalkFromIsWalk(
    filter: string, f: nat, topic: string, t: nat, walk: (seq<string>, seq<string>) -> bool)
    requires f <= |filter| && t <= |topic| && WalksLevels(walk)
    ensures WalkFrom(filter, f, topic, t) <==> walk(SplitFrom(filter, '/', f), SplitFrom(topic, '/', t))
    decreases |filter| - f
  {
    var fs, ts := Find(filter, '/', f), Find(topic, '/', t);
    var fl, tl := AfterPart(filter, '/', f), AfterPart(topic, '/', t);
    SplitFromStep(filter, '/', f);
    SplitFromStep(topic, '/', t);
    WalkFromStep(filter, f, topic, t);
    AfterPartIsEmpty(filter, f);
    AfterPartIsEmpty(topic, t);
    assert WalksOne(walk, filter[f..fs], fl, topic[t..ts], tl);
    if fs < |filter| && ts < |topic| {
      WalkFromIsWalk(filter, fs + 1, topic, ts + 1, walk);
    }
  }

  lemma {:induction false} WalkFromIsTopicMatch(filter: string, topic: string)
    ensures WalkFrom(filter, 0, topic, 0) <==> TopicMatch(filter, topic)
  {
    WalkWalksLevels();
    WalkFromIsWalk(filter, 0, topic, 0, Walk);
    WalkIsLevelsMatch(Split(filter, '/'), Split(topic, '/'));
  }

  /** One pass of the loop: the verdict, unless both views go on after their separators. */
  method CompareLevels(filter: string, f: nat, filterSeparator: nat, topic: string, t: nat, topicSeparator: nat)
    returns (verdict: Option<bool>)
    requires f <= |filter| && t <= |topic|
    requires filterSeparator == Find(filter, '/', f) && topicSeparator == Find(topic, '/', t)
    ensures verdict.Some? ==> (verdict.value <==> WalkFrom(filter, f, topic, t))
    ensures verdict.None? ==>
              && filterSeparator < |filter| && topicSeparator < |topic|
              && (WalkFrom(filter, f, topic, t) <==> WalkFrom(filter, filterSeparator + 1, topic, topicSeparator + 1))
  {
    var filterLevel := filter[f..filterSeparator];
    var topicLevel := topic[t..topicSeparator];
    var filterEnded := filterSeparator == |filter|;
    var topicEnded := topicSeparator == |topic|;
    if filterLevel == "#" {
      return Some(filterEnded);
    }
    if filterLevel != "+" && filterLevel != topicLevel {
      return Some(false);
    }
    if filterEnded || topicEnded {
      return Some(filterEnded && topicEnded);
    }
    return None;
  }

  method TopicMatches(filter: string, topic: string) returns (matches: bool)
    ensures matches <==> TopicMatch(filter, topic)
  {
    WalkFromIsTopicMatch(filter, topic);
    ghost var expected := TopicMatch(filter, topic);
    var f: nat, t: nat := 0, 0;
    while true
      invariant f <= |filter| && t <= |topic|
      invariant expected <==> WalkFrom(filter, f, topic, t)
      decreases |filter| - f
    {
      var filterSeparator := Find(filter, '/', f);
      var topicSeparator := Find(topic, '/', t);
      var verdict := CompareLevels(filter, f, filterSeparator, topic, t, topicSeparator);
      if verdict.Some? {
        return verdict.value;
      }
      f, t := filterSeparator + 1, topicSeparator + 1;
    }
  }

  /** One level against one level: `+` and `#` take any, every other filter only itself. */
  lemma {:induction false} OneLevelMeans(filter: string, topic: string)
    requires Free(filter, '/') && Free(topic, '/')
    ensures TopicMatch(filter, topic) <==> filter == "#" || filter == "+" || filter == topic
  {
    SplitJoin([filter], '/');
    SplitJoin([topic], '/');
    assert Join([filter], '/') == filter && Join([topic], '/') == topic;
  }

  // ---------------------------------------------------------------- the relation of MQTT 3.1.1

  /** Section 4.7.1.2 of MQTT 3.1.1: a final `#` also matches the level above it. */
  predicate ParentOrBelow(fl: seq<string>, tl: seq<string>) {
    && fl != [] && fl[|fl| - 1] == "#" && |fl| - 1 <= |tl|
    && forall i :: 0 <= i < |fl| - 1 ==> LevelOk(fl[i], tl[i])
  }

  /** Section 4.7.2: a filter that begins with a wildcard does not match a topic that begins with `$`. */
  predicate Reserved(fl: seq<string>, tl: seq<string>) {
    && fl != [] && tl != [] && (fl[0] == "#" || fl[0] == "+") && tl[0] != "" && tl[0][0] == '$'
  }

  predicate StandardMatch(fl: seq<string>, tl: seq<string>) {
    !Reserved(fl, tl) && (SameLevels(fl, tl) || ParentOrBelow(fl, tl))
  }

  /** The topic is the parent level of a filter that ends in `#`. */
  predicate ParentOnly(fl: seq<string>, tl: seq<string>) {
    ParentOrBelow(fl, tl) && |tl| == |fl| - 1
  }

  /** The code differs from the standard in exactly two cases: the parent level, and reserved topics. */
  lemma {:induction false} DifferencesFromTheStandard(fl: seq<string>, tl: seq<string>)
    ensures (StandardMatch(fl, tl) && !LevelsMatch(fl, tl)) <==> ParentOnly(fl, tl) && !Reserved(fl, tl)
    ensures (LevelsMatch(fl, tl) && !StandardMatch(fl, tl)) <==> Reserved(fl, tl) && LevelsMatch(fl, tl)
  {
    if ParentOnly(fl, tl) {
      assert !SameLevels(fl, tl) && !OpenEnded(fl, tl);
    }
  }

  /** Both differences occur: "a" is the parent level of the filter "a/#", and "$SYS/x" is reserved. */
  lemma {:induction false} BothDifferencesOccur()
    ensures !TopicMatch("a/#", "a") && StandardMatch(Split("a/#", '/'), Split("a", '/'))
    ensures TopicMatch("#", "$SYS/x") && !StandardMatch(Split("#", '/'), Split("$SYS/x", '/'))
  {
    SplitJoin(["a", "#"], '/');
    SplitJoin(["a"], '/');
    SplitJoin(["#"], '/');
    SplitJoin(["$SYS", "x"], '/');
    assert Join(["a", "#"], '/') == "a/#" && Join(["a"], '/') == "a";
    assert Join(["#"], '/') == "#" && Join(["$SYS", "x"], '/') == "$SYS/x";
    DifferencesFromTheStandard(["a", "#"], ["a"]);
    DifferencesFromTheStandard(["#"], ["$SYS", "x"]);
  }

  // ---------------------------------------------------------------- acknowledgement topics

  predicate IsClientIdChar(c: char) {
    IsAlnum(c) || c == '-' || c == '_' || c == '.'
  }

  predicate IsValidClientId(id: string) {
    1 <= |id| <= 128 && AllOf(id, IsClientIdChar)
  }

  /** Which lengths and which characters a client id may have. */
  lemma {:induction false} ClientIdMeans(n: nat, c: char)
    ensures IsValidClientId(seq(n, i => 'a')) <==> 1 <= n <= 128
    ensures IsValidClientId([c]) <==>
              'a' <= c <= 'z' || 'A' <= c <= 'Z' || '0' <= c <= '9' || c == '-' || c == '_' || c == '.'
  {
    assert [c][0] == c;
  }

  function AckTopicForClient(clientId: string): string {
    "watchlist/acks/" + clientId
  }

  lemma {:induction false} AckLevels(id: string)
    requires IsValidClientId(id)
    ensures Split(AckTopicForClient(id), '/') == ["watchlist", "acks", id]
  {
    var levels := ["watchlist", "acks", id];
    assert Free(id, '/') by {
      forall i | 0 <= i < |id| ensures id[i] != '/' {
        assert IsClientIdChar(id[i]);
      }
    }
    assert levels[1..] == ["acks", id] && ["acks", id][1..] == [id];
    assert Join([id], '/') == id;
    assert Join(["acks", id], '/') == "acks" + ['/'] + id;
    assert Join(levels, '/') == "watchlist" + ['/'] + Join(["acks", id], '/');
    assert AckTopicForClient(id) == Join(levels, '/');
    SplitJoin(levels, '/');
  }

  /** A client's acknowledgement topic, used as a filter, matches that topic and no other. */
  lemma {:induction false} AckFilterIsExact(id: string, topic: string)
    requires IsValidClientId(id)
    ensures TopicMatch(AckTopicForClient(id), topic) <==> topic == AckTopicForClient(id)
  {
    AckLevels(id);
    var fl, tl := Split(AckTopicForClient(id), '/'), Split(topic, '/');
    assert IsClientIdChar(id[0]);
    assert id != "#" && id != "+";
    JoinSplit(topic, '/');
    JoinSplit(AckTopicForClient(id), '/');
    if LevelsMatch(fl, tl) {
      assert LevelOk(fl[0], tl[0]) && LevelOk(fl[1], tl[1]) && LevelOk(fl[2], tl[2]);
      assert tl == fl;
    }
  }

  /** So one client never receives another's acknowledgements. */
  lemma {:induction false} AckTopicsAreSeparate(c: string, d: string)
    requires IsValidClientId(c) && IsValidClientId(d)
    ensures TopicMatch(AckTopicForClient(d), AckTopicForClient(c)) <==> c == d
  {
    AckFilterIsExact(d, AckTopicForClient(c));
    if AckTopicForClient(c) == AckTopicForClient(d) {
      assert c == AckTopicForClient(c)[15..] == AckTopicForClient(d)[15..] == d;
    }
  }
}
