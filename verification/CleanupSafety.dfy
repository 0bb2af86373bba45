/** What the cleanups guarantee in every run: comments are posted at most once
    per clock epoch, and closings keep the dates the bot has promised. */
module CleanupSafety {
  import opened Wrappers
  import opened PullRequests
  import opened CleanupActions
  import opened CleanupProtocol

  /** The clock the posting sweep read. */
  function Since(p: Post): Option<Time>
    requires |p.summary.commits| > 0
  {
    Clock(p.cleanup, p.staff, p.summary, p.full)
  }

  ghost predicate ReachableFrom(s0: State, events: seq<Event>, s: State) {
    Init(s0) && Exec(s0, events) == Some(s)
  }

  // ---------- at most once ----------

  /** What a post says about the comments its sweep had read. */
  lemma {:induction false} PostMeaning(s: State, k: nat)
    requires Inv(s) && k < |s.posts|
    ensures var p := s.posts[k];
            && |p.summary.commits| > 0 && p.now <= p.at
            && Owner(p.marker) == p.cleanup
            && Since(p).Some?
            && (p.marker != ChangesAck ==> BotCommentedAt(p.full.comments, p.marker, Since(p).value).None?)
            && BotCommentedAt(p.full.comments, CloseMarker(p.cleanup), Since(p).value).None?
  {
    var p := s.posts[k];
    assert Justified(p);
    CommentStep(p.cleanup, p.staff, p.summary, p.full, p.now);
  }

  lemma {:induction false} OwnMarker(s: State, k: nat)
    requires Inv(s) && k < |s.posts|
    ensures Owner(s.posts[k].marker) == s.posts[k].cleanup
  {
    PostMeaning(s, k);
  }

  /** Nothing but a warning is posted without a warning younger than the clock. */
  lemma {:induction false} PostAfterWarning(s: State, k: nat)
    requires Inv(s) && k < |s.posts|
    ensures var p := s.posts[k];
            && |p.summary.commits| > 0 && Since(p).Some?
            && var since := Since(p).value;
               var warnedAt := BotCommentedAt(p.full.comments, Warning(p.cleanup), since);
               if p.marker == Warning(p.cleanup) then since < p.at
               else
                 && warnedAt.Some?
                 && (p.marker == CloseMarker(p.cleanup)
                     && (p.cleanup == StaleChanges ==> BotCommentedAt(p.full.comments, ChangesAck, since).None?)
                     ==> warnedAt.value + WaitAfterWarning(p.cleanup) <= p.now)
  {
    var p := s.posts[k];
    assert Justified(p);
    WarningFirst(p.cleanup, p.staff, p.summary, p.full, p.now);
  }

  /** The post behind a bot comment that the sweep of post `k` had read. */
  lemma {:induction false} PostBehind(s: State, k: nat, i: nat) returns (j: nat)
    requires Inv(s) && k < |s.posts| && i < |s.posts[k].full.comments| && ByBot(s.posts[k].full.comments[i])
    ensures j < k && s.posts[j].index == i
    ensures BotSaid(s.posts[k].full.comments[i], s.posts[j].marker) && s.posts[k].full.comments[i].at == s.posts[j].at
    ensures s.posts[j].cleanup == Owner(s.posts[j].marker)
  {
    assert s.posts[k].full.comments <= s.pr.comments;
    assert ByBot(s.pr.comments[i]);
    j :| 0 <= j < |s.posts| && s.posts[j].index == i;
    assert Recorded(s.posts[j], s.pr.comments);
    assert |s.posts[k].full.comments| <= s.posts[k].index by { assert Justified(s.posts[k]); }
    OwnMarker(s, j);
  }

  /** The post behind the time `BotCommentedAt` found. */
  lemma {:induction false} PostFound(s: State, k: nat, m: Marker, since: Time) returns (j: nat)
    requires Inv(s) && k < |s.posts|
    requires BotCommentedAt(s.posts[k].full.comments, m, since).Some?
    ensures j < k && s.posts[j].marker == m && s.posts[j].cleanup == Owner(m)
    ensures s.posts[j].index < |s.posts[k].full.comments|
    ensures s.posts[j].at == BotCommentedAt(s.posts[k].full.comments, m, since).value > since
  {
    var full := s.posts[k].full.comments;
    var i :| 0 <= i < |full| && BotSaid(full[i], m) && full[i].at == BotCommentedAt(full, m, since).value;
    j := PostBehind(s, k, i);
  }

  // ---------- at most once ----------

  /** Between two comments with the same marker the clock of their cleanup has
      restarted: it stood at or after the first one when the sweep that posted
      the second one read it. Acknowledgements are the exception. */
  lemma {:induction false} AtMostOncePerEpoch(s0: State, events: seq<Event>, s: State, j: nat, k: nat)
    requires ReachableFrom(s0, events, s)
    requires j < k < |s.posts| && s.posts[j].marker == s.posts[k].marker != ChangesAck
    ensures |s.posts[k].summary.commits| > 0 && Since(s.posts[k]).Some?
    ensures s.posts[j].at <= Since(s.posts[k]).value
  {
    ExecInv(s0, events);
    PostMeaning(s, j);
    PostMeaning(s, k);
  }

  /** Once a cleanup has posted its closing comment, it posts nothing at all
      until its clock restarts. */
  lemma {:induction false} ClosingCommentIsLast(s0: State, events: seq<Event>, s: State, j: nat, k: nat)
    requires ReachableFrom(s0, events, s)
    requires j < k < |s.posts| && s.posts[j].cleanup == s.posts[k].cleanup
    requires s.posts[j].marker == CloseMarker(s.posts[j].cleanup)
    ensures |s.posts[k].summary.commits| > 0 && Since(s.posts[k]).Some?
    ensures s.posts[j].at <= Since(s.posts[k]).value
  {
    ExecInv(s0, events);
    PostMeaning(s, k);
  }

  lemma {:induction false} AckMeaning(s: State, k: nat)
    requires Inv(s) && k < |s.posts| && s.posts[k].marker == ChangesAck
    ensures var p := s.posts[k];
            && |p.summary.commits| > 0 && Since(p).Some?
            && var noticeAt := NoticeAt(p.full, Since(p).value);
               noticeAt.Some? && !AuthorSilentAfter(p.full, noticeAt.value)
  {
    var p := s.posts[k];
    PostMeaning(s, k);
    assert Justified(p);
    ChangesStep(p.staff, p.summary, p.full, p.now);
  }

  /** Two acknowledgements of one epoch are separated by a comment of the author
      that is later than the first. */
  lemma {:induction false} AcknowledgedOncePerComment(s0: State, events: seq<Event>, s: State, j: nat, k: nat)
    requires ReachableFrom(s0, events, s)
    requires j < k < |s.posts| && s.posts[j].marker == s.posts[k].marker == ChangesAck
    ensures |s.posts[k].summary.commits| > 0 && Since(s.posts[k]).Some?
    ensures s.posts[j].at <= Since(s.posts[k]).value || !AuthorSilentAfter(s.posts[k].full, s.posts[j].at)
  {
    ExecInv(s0, events);
    PostMeaning(s, j);
    AckMeaning(s, k);
    PostMeaning(s, k);
  }

  /** Every closing comment follows a warning of the same epoch, and unless the
      author was given an acknowledgement since, the full wait has passed. */
  lemma {:induction false} WarnedFirst(s0: State, events: seq<Event>, s: State, k: nat)
    requires ReachableFrom(s0, events, s)
    requires k < |s.posts| && s.posts[k].marker == CloseMarker(s.posts[k].cleanup)
    ensures |s.posts[k].summary.commits| > 0 && Since(s.posts[k]).Some?
    ensures exists j | 0 <= j < k ::
              && s.posts[j].marker == Warning(s.posts[k].cleanup)
              && Since(s.posts[k]).value < s.posts[j].at
              && (s.posts[j].at + WaitAfterWarning(s.posts[k].cleanup) <= s.posts[k].now
                  || (exists i | 0 <= i < k ::
                        s.posts[i].marker == ChangesAck && Since(s.posts[k]).value < s.posts[i].at))
  {
    ExecInv(s0, events);
    PostAfterWarning(s, k);
    var p := s.posts[k];
    var since := Since(p).value;
    var j := PostFound(s, k, Warning(p.cleanup), since);
    if s.posts[j].at + WaitAfterWarning(p.cleanup) > p.now {
      var i := PostFound(s, k, ChangesAck, since);
      assert s.posts[i].marker == ChangesAck && since < s.posts[i].at;
    }
    assert s.posts[j].marker == Warning(p.cleanup) && since < s.posts[j].at;
  }

  // ---------- promised dates ----------

  /** A notice never promises a later day than the one the script counts from
      the time the notice was stamped. */
  lemma {:induction false} PromiseIsCounted(s: State, j: nat)
    requires Inv(s) && j < |s.posts| && NamesDay(s.posts[j].marker)
    ensures s.posts[j].promised.Some?
    ensures s.posts[j].promised.value <= DateOf(s.posts[j].at + NoticePeriod(s.posts[j].marker))
  {
    var p := s.posts[j];
    assert Justified(p);
    NoticeNamesDay(p.cleanup, p.staff, p.summary, p.full, p.now, Marked(p.marker, p.promised));
  }

  /** Post `j` is a notice of the current epoch that the sweep of post `k` had
      read. */
  ghost predicate IsNotice(s: State, j: nat, k: nat)
    requires j < k < |s.posts| && |s.posts[k].summary.commits| > 0 && Since(s.posts[k]).Some?
  {
    IsNoticeSince(s, j, k, Since(s.posts[k]).value)
  }

  ghost predicate IsNoticeSince(s: State, j: nat, k: nat, since: Time)
    requires j < k < |s.posts|
  {
    && s.posts[j].cleanup == s.posts[k].cleanup
    && NamesDay(s.posts[j].marker)
    && s.posts[j].index < |s.posts[k].full.comments|
    && s.posts[j].at > since
  }

  /** ... and the last one. */
  ghost predicate LastNotice(s: State, j: nat, k: nat)
    requires j < k < |s.posts| && |s.posts[k].summary.commits| > 0 && Since(s.posts[k]).Some?
  {
    && IsNotice(s, j, k)
    && forall i | j < i < k :: !IsNotice(s, i, k)
  }

  /** Of two warnings of one cleanup the later one is strictly later, and the
      first is not younger than the clock of the second. */
  lemma {:induction false} WarningsApart(s: State, j: nat, m: nat)
    requires Inv(s) && j < m < |s.posts|
    requires s.posts[j].marker == s.posts[m].marker == Warning(s.posts[m].cleanup)
    ensures |s.posts[m].summary.commits| > 0 && Since(s.posts[m]).Some?
    ensures s.posts[j].at <= Since(s.posts[m]).value < s.posts[m].at
  {
    PostMeaning(s, j);
    PostMeaning(s, m);
    PostAfterWarning(s, m);
  }

  /** A comment the sweep of `k` had read cannot be later than what
      `BotCommentedAt` found. */
  lemma {:induction false} NotLaterThanFound(s: State, m: nat, k: nat, since: Time)
    requires Inv(s) && m < k < |s.posts| && s.posts[m].index < |s.posts[k].full.comments|
    ensures var found := BotCommentedAt(s.posts[k].full.comments, s.posts[m].marker, since);
            s.posts[m].at > since ==> found.Some? && s.posts[m].at <= found.value
  {
    assert Recorded(s.posts[m], s.pr.comments) && s.posts[k].full.comments <= s.pr.comments;
    assert BotSaid(s.posts[k].full.comments[s.posts[m].index], s.posts[m].marker);
  }

  lemma {:induction false} SelfReviewCloseMeaning(s: State, k: nat)
    requires Inv(s) && k < |s.posts| && s.posts[k].marker == SelfReviewClose
    ensures var p := s.posts[k];
            && |p.summary.commits| > 0 && Since(p).Some? && p.cleanup == NoSelfReview
            && var pingedAt := BotCommentedAt(p.full.comments, SelfReviewPing, Since(p).value);
               && pingedAt.Some?
               && ClosingDateReached(pingedAt.value, SELF_REVIEW_CLOSE_AFTER_PING, p.now)
               && (p.full.noticeInReadme || AuthorSilentAfter(p.full, pingedAt.value))
  {
    var p := s.posts[k];
    PostMeaning(s, k);
    assert Justified(p);
    assert Since(p) == Some(ClockStart(p.full.timeline, SelfReviewStartedAt(p.full)));
    SelfReviewStep(p.summary, p.full, p.now);
  }

  /** The sweep of `k` had read no warning after `j`, the latest one by its
      stamp. */
  lemma {:induction false} NoLaterWarning(s: State, j: nat, m: nat, k: nat, since: Time)
    requires Inv(s) && j < m < k < |s.posts|
    requires s.posts[j].marker == s.posts[m].marker == Warning(s.posts[m].cleanup)
    requires BotCommentedAt(s.posts[k].full.comments, s.posts[j].marker, since) == Some(s.posts[j].at)
    ensures s.posts[m].index >= |s.posts[k].full.comments|
  {
    WarningsApart(s, j, m);
    if s.posts[m].index < |s.posts[k].full.comments| {
      assert false;
    }
  }

  /** The ping a "no self-review" closing answers to is the last notice. */
  lemma {:induction false} PingIsLast(s: State, j: nat, k: nat)
    requires Inv(s) && j < k < |s.posts| && s.posts[j].marker == SelfReviewPing
    requires |s.posts[k].summary.commits| > 0 && Since(s.posts[k]).Some? && s.posts[k].cleanup == NoSelfReview
    requires s.posts[j].index < |s.posts[k].full.comments| && s.posts[j].cleanup == NoSelfReview
    requires BotCommentedAt(s.posts[k].full.comments, SelfReviewPing, Since(s.posts[k]).value) == Some(s.posts[j].at)
    ensures LastNotice(s, j, k)
  {
    forall m | j < m < k ensures !IsNotice(s, m, k) {
      NotANotice(s, j, m, k, Since(s.posts[k]).value);
    }
  }

  lemma {:induction false} NotANotice(s: State, j: nat, m: nat, k: nat, since: Time)
    requires Inv(s) && j < m < k < |s.posts| && s.posts[j].marker == SelfReviewPing
    requires s.posts[k].cleanup == NoSelfReview
    requires BotCommentedAt(s.posts[k].full.comments, SelfReviewPing, since) == Some(s.posts[j].at)
    ensures !IsNoticeSince(s, m, k, since)
  {
    if s.posts[m].cleanup == NoSelfReview && NamesDay(s.posts[m].marker) {
      assert s.posts[m].marker == SelfReviewPing by { OwnMarker(s, m); }
      NoLaterWarning(s, j, m, k, since);
    }
  }

  lemma {:induction false} SelfReviewClosingDay(s: State, k: nat) returns (j: nat)
    requires Inv(s) && k < |s.posts| && s.posts[k].marker == SelfReviewClose
    ensures |s.posts[k].summary.commits| > 0 && Since(s.posts[k]).Some?
    ensures j < k && LastNotice(s, j, k)
    ensures s.posts[j].promised.Some? && s.posts[j].promised.value <= DateOf(s.posts[k].now)
    ensures s.posts[k].full.noticeInReadme || AuthorSilentAfter(s.posts[k].full, s.posts[j].at)
  {
    SelfReviewCloseMeaning(s, k);
    j := PostFound(s, k, SelfReviewPing, Since(s.posts[k]).value);
    PromiseIsCounted(s, j);
    PingIsLast(s, j, k);
  }

  /** "No self-review" closings keep the promised day, in every run. */
  lemma {:induction false} SelfReviewClosesOnPromisedDay(s0: State, events: seq<Event>, s: State, k: nat)
    requires ReachableFrom(s0, events, s)
    requires k < |s.posts| && s.posts[k].marker == SelfReviewClose
    ensures |s.posts[k].summary.commits| > 0 && Since(s.posts[k]).Some?
    ensures exists j | 0 <= j < k ::
              && LastNotice(s, j, k)
              && s.posts[j].promised.Some? && s.posts[j].promised.value <= DateOf(s.posts[k].now)
              && (s.posts[k].full.noticeInReadme || AuthorSilentAfter(s.posts[k].full, s.posts[j].at))
  {
    ExecInv(s0, events);
    var j := SelfReviewClosingDay(s, k);
  }
}
