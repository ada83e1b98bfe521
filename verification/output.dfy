/**
 * The output controller's subscription filter: an event goes to every handler
 * when no subscriber is configured, or when some subscriber's patterns and level
 * set accept it, and to no handler otherwise.
 */
module Output {
  import opened Wrappers
  import opened Text

  datatype OutputLevel = Debug | Info | Warning | Error | Success {
    /** The enum member's `value`. */
    function Value(): string {
      match this
      case Debug => "debug"
      case Info => "info"
      case Warning => "warning"
      case Error => "error"
      case Success => "success"
    }
  }

  /** An event's routing fields (its message payload and timestamp do not take part in filtering). */
  datatype OutputEvent = OutputEvent(domain: string, category: string, subcategory: string, level: OutputLevel, message: string)

  /** The `level` entry of a subscriber: a list of level names, or one string searched as text. */
  datatype LevelSpec = LevelList(names: seq<string>) | LevelText(text: string)

  /** A subscriber: each key that is present constrains the events it accepts. */
  datatype Subscriber = Subscriber(
    domain: Option<string>,
    category: Option<string>,
    subcategory: Option<string>,
    level: Option<LevelSpec>)

  /** `_matches_pattern`: "*" matches anything, "p*" is a prefix test, "*s" a suffix test, else equality. */
  predicate MatchesPattern(value: string, pattern: string) {
    if pattern == "*" then true
    else if EndsWith(pattern, "*") then StartsWith(value, pattern[..|pattern| - 1])
    else if StartsWith(pattern, "*") then EndsWith(value, pattern[1..])
    else value == pattern
  }

  /** Text `a` followed by text `b`. */
  function Concat(a: string, b: string): string {
    a + b
  }

  /** Reference reading of a one-star glob: the star stands for any text at its end of the pattern. */
  ghost predicate GlobAccepts(value: string, pattern: string) {
    if pattern == "*" then true
    else if |pattern| > 0 && pattern[|pattern| - 1] == '*' then exists rest {:trigger Concat(pattern[..|pattern| - 1], rest)} :: value == Concat(pattern[..|pattern| - 1], rest)
    else if |pattern| > 0 && pattern[0] == '*' then exists front {:trigger Concat(front, pattern[1..])} :: value == Concat(front, pattern[1..])
    else value == pattern
  }

  /** The pattern test is the one-star glob whose star stands for any text at that end. */
  lemma MatchesPatternIsGlob(value: string, pattern: string)
    ensures MatchesPattern(value, pattern) <==> GlobAccepts(value, pattern)
  {
    if pattern != "*" && |pattern| > 0 && pattern[|pattern| - 1] == '*' {
      var p := pattern[..|pattern| - 1];
      assert pattern[|pattern| - 1..] == "*";
      if StartsWith(value, p) {
        assert value == Concat(p, value[|p|..]);
      }
      if exists rest :: value == Concat(p, rest) {
        var rest :| value == Concat(p, rest);
        assert value[..|p|] == p;
      }
    } else if pattern != "*" && |pattern| > 0 && pattern[0] == '*' {
      var s := pattern[1..];
      assert pattern[..1] == "*";
      assert !EndsWith(pattern, "*");
      if EndsWith(value, s) {
        assert value == Concat(value[..|value| - |s|], s);
      }
      if exists front :: value == Concat(front, s) {
        var front :| value == Concat(front, s);
        assert value[|value| - |s|..] == s;
      }
    } else if pattern != "*" {
      if |pattern| > 0 {
        assert pattern[|pattern| - 1..][0] == pattern[|pattern| - 1];
        assert pattern[..1][0] == pattern[0];
      }
    }
  }

  /** A pattern starred at both ends is a prefix test on its literal star, not a substring test. */
  lemma BothEndsStarIsNotSubstring()
    ensures !MatchesPattern("xabcx", "*abc*")
    ensures MatchesPattern("*abcx", "*abc*")
  {
    assert "*abc*"[..4] == "*abc";
    assert "xabcx"[..4] != "*abc" by { assert "xabcx"[..4][0] == 'x'; }
    assert "*abcx"[..4] == "*abc";
  }

  /** `event.level.value in subscriber["level"]`: list membership, or substring search in a string. */
  predicate LevelAccepted(level: OutputLevel, spec: LevelSpec) {
    match spec
    case LevelList(names) => level.Value() in names
    case LevelText(text) => Contains(text, level.Value())
  }

  /** `_matches_subscriber`: every present key accepts the event; an absent key accepts anything. */
  predicate MatchesSubscriber(event: OutputEvent, sub: Subscriber) {
    if sub.domain.Some? && !MatchesPattern(event.domain, sub.domain.value) then false
    else if sub.category.Some? && !MatchesPattern(event.category, sub.category.value) then false
    else if sub.subcategory.Some? && !MatchesPattern(event.subcategory, sub.subcategory.value) then false
    else if sub.level.Some? && !LevelAccepted(event.level, sub.level.value) then false
    else true
  }

  /** A subscriber accepts an event exactly when each key it has accepts the corresponding field. */
  lemma MatchesSubscriberIsConjunction(event: OutputEvent, sub: Subscriber)
    ensures MatchesSubscriber(event, sub) <==>
              && (sub.domain.Some? ==> GlobAccepts(event.domain, sub.domain.value))
              && (sub.category.Some? ==> GlobAccepts(event.category, sub.category.value))
              && (sub.subcategory.Some? ==> GlobAccepts(event.subcategory, sub.subcategory.value))
              && (sub.level.Some? ==> LevelAccepted(event.level, sub.level.value))
  {
    if sub.domain.Some? {
      MatchesPatternIsGlob(event.domain, sub.domain.value);
    }
    if sub.category.Some? {
      MatchesPatternIsGlob(event.category, sub.category.value);
    }
    if sub.subcategory.Some? {
      MatchesPatternIsGlob(event.subcategory, sub.subcategory.value);
    }
  }

  /** A subscriber with no keys accepts every event. */
  lemma EmptySubscriberAcceptsAll(event: OutputEvent)
    ensures MatchesSubscriber(event, Subscriber(None, None, None, None))
  {
  }

  /** The loop of `_should_output` over the subscribers: whether one of them matches. */
  function AnyMatches(event: OutputEvent, subs: seq<Subscriber>): (r: bool)
    ensures r <==> exists k :: 0 <= k < |subs| && MatchesSubscriber(event, subs[k])
  {
    if |subs| == 0 then false
    else if MatchesSubscriber(event, subs[0]) then true
    else
      var rest := AnyMatches(event, subs[1..]);
      assert forall k :: 1 <= k < |subs| ==> subs[k] == subs[1..][k - 1];
      assert rest ==> exists k :: 0 <= k < |subs| && MatchesSubscriber(event, subs[k]);
      rest
  }

  /** `_should_output`: no subscribers means everything is shown; otherwise some subscriber must match. */
  function ShouldOutput(event: OutputEvent, subs: seq<Subscriber>): (r: bool)
    ensures |subs| == 0 ==> r
    ensures |subs| > 0 ==> (r <==> exists s :: s in subs && MatchesSubscriber(event, s))
  {
    |subs| == 0 || AnyMatches(event, subs)
  }

  /** Adding a subscriber to a non-empty list never hides an event that was shown. */
  lemma MoreSubscribersShowMore(event: OutputEvent, subs: seq<Subscriber>, extra: Subscriber)
    requires |subs| > 0
    ensures ShouldOutput(event, subs) ==> ShouldOutput(event, subs + [extra])
  {
    if ShouldOutput(event, subs) {
      var s :| s in subs && MatchesSubscriber(event, s);
      assert s in subs + [extra];
    }
  }

  /**
   * `_emit`: the handlers that receive the event, in order. Each handler is
   * called with it when the filter passes it, and none otherwise.
   */
  method Emit<H>(handlers: seq<H>, subs: seq<Subscriber>, event: OutputEvent) returns (called: seq<H>)
    ensures ShouldOutput(event, subs) ==> called == handlers
    ensures !ShouldOutput(event, subs) ==> called == []
  {
    called := [];
    if ShouldOutput(event, subs) {
      var i := 0;
      while i < |handlers|
        invariant 0 <= i <= |handlers|
        invariant called == handlers[..i]
      {
        called := called + [handlers[i]];
        i := i + 1;
      }
      assert handlers[..|handlers|] == handlers;
    }
  }
}
