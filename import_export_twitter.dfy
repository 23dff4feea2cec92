/**
 * The decision logic of the Twitter lookup functions: fetching one profile
 * by user id or handle (`retrieve_twitter_user_info`) and ranking the users a
 * name search returns (`retrieve_twitter_user_possibilities`).
 *
 * The tweepy client is not modelled. A lookup hands the request it would
 * send to `api.get_user` to a `provider` function and gets back one of the
 * three outcomes tweepy can produce; a search is given the list that
 * `api.search_users` returned.
 */
module ImportExportTwitter {
  import opened Wrappers
  import opened Text

  /** A raw provider record (`_json` of a tweepy user): keys to JSON text. */
  type Profile = map<string, string>

  // ---------------------------------------------------------------------
  // Inputs
  // ---------------------------------------------------------------------

  /** The Python value passed as `twitter_handle`. */
  datatype HandleArg = FalseLiteral | NoneLiteral | HandleString(text: string)

  /** A sentinel spelling of "no handle", in any case. */
  predicate IsSentinel(s: string)
  {
    Lower(s) == "false" || Lower(s) == "none"
  }

  /**
   * The handle with the sentinels "False"/"None" stripped out: the literals
   * False and None, and any string whose lower case is "false" or "none",
   * become the empty string; every other string is kept.
   */
  function NormaliseHandle(h: HandleArg): (r: string)
    ensures r == "" || h == HandleString(r)
    ensures Lower(r) != "false" && Lower(r) != "none"
  {
    match h
    case FalseLiteral => ""
    case NoneLiteral => ""
    case HandleString(s) =>
      if s != "" && IsSentinel(s) then "" else s
  }

  /** Normalisation blanks exactly the sentinels and keeps every other string unchanged. */
  lemma NormaliseHandleBlanksExactlySentinels(h: HandleArg)
    ensures NormaliseHandle(h) == "" <==> !h.HandleString? || h.text == "" || IsSentinel(h.text)
    ensures h.HandleString? && !IsSentinel(h.text) ==> NormaliseHandle(h) == h.text
  {
  }

  /** Normalising an already normalised handle changes nothing. */
  lemma NormaliseHandleIdempotent(h: HandleArg)
    ensures NormaliseHandle(HandleString(NormaliseHandle(h))) == NormaliseHandle(h)
  {
  }

  /** `positive_value_exists` on the user id: a present, positive integer. */
  predicate PositiveId(userId: Option<int>)
  {
    userId.Some? && userId.value > 0
  }

  /** One call of `api.get_user`: by `user_id` or by `screen_name`. */
  datatype Request = ByUserId(userId: nat) | ByScreenName(screenName: string)

  /** A structured provider error entry; only its message is used. */
  datatype ErrorEntry = ErrorEntry(code: int, message: string)

  /**
   * What a provider call produced: the user record, tweepy.RateLimitError,
   * or tweepy.TweepError whose argument tuple holds lists of error entries.
   */
  datatype ProviderOutcome =
    | Found(profile: Profile)
    | RateLimited
    | Rejected(errors: seq<seq<ErrorEntry>>)

  /**
   * Which call is made: a positive id first, then a non-empty handle,
   * otherwise none (the missing-variable path).
   */
  function ResolveRequest(userId: Option<int>, handle: string): (q: Option<Request>)
    ensures PositiveId(userId) ==> q == Some(ByUserId(userId.value))
    ensures !PositiveId(userId) && handle != "" ==> q == Some(ByScreenName(handle))
    ensures q.None? <==> !PositiveId(userId) && handle == ""
  {
    if PositiveId(userId) then Some(ByUserId(userId.value))
    else if handle != "" then Some(ByScreenName(handle))
    else None
  }

  // ---------------------------------------------------------------------
  // Status strings
  // ---------------------------------------------------------------------

  const MissingVariableStatus: string := "TWITTER_RETRIEVE_NOT_SUCCESSFUL-MISSING_VARIABLE"
  const RateLimitStatus: string := "TWITTER_RATE_LIMIT_ERROR"
  const SuccessMarker: string := "TWITTER_RETRIEVE_SUCCESSFUL-"
  const UserIdSuccessPrefix: string := "TWITTER_RETRIEVE_SUCCESSFUL-TWITTER_USER_ID "
  const HandleSuccessPrefix: string := "TWITTER_RETRIEVE_SUCCESSFUL-TWITTER_HANDLE "

  /** The status of a successful lookup: which kind of identifier was used, and its value. */
  function SuccessStatus(q: Request): (r: string)
    ensures |r| > |SuccessMarker| && r[..|SuccessMarker|] == SuccessMarker
    ensures r != MissingVariableStatus && r != RateLimitStatus
  {
    assert UserIdSuccessPrefix[..|SuccessMarker|] == SuccessMarker;
    assert HandleSuccessPrefix[..|SuccessMarker|] == SuccessMarker;
    assert SuccessMarker[17] != MissingVariableStatus[17];
    match q
    case ByUserId(n) => UserIdSuccessPrefix + NatToString(n)
    case ByScreenName(h) => HandleSuccessPrefix + h
  }

  /** The request a success status speaks of, read back from the status text. */
  function ParseSuccessStatus(status: string): Option<Request>
  {
    if |status| >= |UserIdSuccessPrefix| && status[..|UserIdSuccessPrefix|] == UserIdSuccessPrefix
       && IsDecimal(status[|UserIdSuccessPrefix|..])
    then Some(ByUserId(ParseNat(status[|UserIdSuccessPrefix|..])))
    else if |status| >= |HandleSuccessPrefix| && status[..|HandleSuccessPrefix|] == HandleSuccessPrefix
    then Some(ByScreenName(status[|HandleSuccessPrefix|..]))
    else None
  }

  /** A user-id success status reads back as the request by that id. */
  lemma UserIdSuccessStatusRoundTrip(n: nat)
    ensures ParseSuccessStatus(SuccessStatus(ByUserId(n))) == Some(ByUserId(n))
  {
    var s := SuccessStatus(ByUserId(n));
    assert s[..|UserIdSuccessPrefix|] == UserIdSuccessPrefix;
    assert s[|UserIdSuccessPrefix|..] == NatToString(n);
    ParseNatToString(n);
  }

  /** A handle success status reads back as the request by that handle. */
  lemma HandleSuccessStatusRoundTrip(h: string)
    ensures ParseSuccessStatus(SuccessStatus(ByScreenName(h))) == Some(ByScreenName(h))
  {
    var s := SuccessStatus(ByScreenName(h));
    assert s[36] == 'H' && UserIdSuccessPrefix[36] == 'U';
    assert s[..|HandleSuccessPrefix|] == HandleSuccessPrefix;
    assert s[|HandleSuccessPrefix|..] == h;
  }

  /**
   * A success status says which identifier was used and its value: the
   * request can be read back from it, and the other statuses read as none.
   */
  lemma SuccessStatusRoundTrip(q: Request)
    ensures ParseSuccessStatus(SuccessStatus(q)) == Some(q)
    ensures ParseSuccessStatus(MissingVariableStatus) == None
    ensures ParseSuccessStatus(RateLimitStatus) == None
  {
    OtherStatusesReadAsNoRequest();
    match q
    case ByUserId(n) => UserIdSuccessStatusRoundTrip(n);
    case ByScreenName(h) => HandleSuccessStatusRoundTrip(h);
  }

  lemma OtherStatusesReadAsNoRequest()
    ensures ParseSuccessStatus(MissingVariableStatus) == None
    ensures ParseSuccessStatus(RateLimitStatus) == None
  {
    var m := MissingVariableStatus;
    assert m[..|UserIdSuccessPrefix|][17] == 'N' != UserIdSuccessPrefix[17];
    assert m[..|HandleSuccessPrefix|][17] == 'N' != HandleSuccessPrefix[17];
    assert |RateLimitStatus| < |HandleSuccessPrefix| < |UserIdSuccessPrefix|;
  }

  /** Distinct requests give distinct success statuses. */
  lemma SuccessStatusInjective(q1: Request, q2: Request)
    requires SuccessStatus(q1) == SuccessStatus(q2)
    ensures q1 == q2
  {
    SuccessStatusRoundTrip(q1);
    SuccessStatusRoundTrip(q2);
  }

  /** One provider message as it is appended to the status. */
  function Bracket(message: string): string
  {
    "[" + message + "] "
  }

  /** The bracketed messages of one error entry list, in order. */
  function BracketedMessages(entries: seq<ErrorEntry>): string
  {
    if entries == [] then ""
    else BracketedMessages(entries[..|entries| - 1]) + Bracket(entries[|entries| - 1].message)
  }

  /** The bracketed messages of every error entry list, in provider order. */
  function ErrorDetail(errors: seq<seq<ErrorEntry>>): string
  {
    if errors == [] then ""
    else ErrorDetail(errors[..|errors| - 1]) + BracketedMessages(errors[|errors| - 1])
  }

  /** The start of a rejected-lookup status: the handle and the id, when present. */
  function RejectedStatusPrefix(handle: string, userId: Option<int>): (r: string)
    ensures |r| > 0 && r[|r| - 1] == ' '
    ensures handle != "" ==> |r| > |handle| && r[..|handle| + 1] == handle + " "
    ensures PositiveId(userId) ==> |r| > |NatToString(userId.value)|
                                   && r[|r| - |NatToString(userId.value)| - 1..] == NatToString(userId.value) + " "
    ensures handle == "" && !PositiveId(userId) ==> r == " "
    ensures |r| == (if handle != "" then |handle| + 1 else 0)
                   + (if PositiveId(userId) then |NatToString(userId.value)| + 1 else 1)
  {
    (if handle != "" then handle + " " else "")
    + (if PositiveId(userId) then NatToString(userId.value) + " " else " ")
  }

  /**
   * The status of a rejected lookup, built as the source builds it: the
   * handle, the id, then one bracketed message per entry of every list.
   */
  method BuildRejectedStatus(handle: string, userId: Option<int>, errors: seq<seq<ErrorEntry>>)
    returns (status: string)
    ensures status == RejectedStatusPrefix(handle, userId) + ErrorDetail(errors)
  {
    status := RejectedStatusPrefix(handle, userId);
    ghost var prefix := status;
    for i := 0 to |errors|
      invariant status == prefix + ErrorDetail(errors[..i])
    {
      status := AppendMessages(status, errors[i]);
      ErrorDetailStep(errors, i);
      assert status == prefix + (ErrorDetail(errors[..i]) + BracketedMessages(errors[i]));
    }
    assert errors[..|errors|] == errors;
  }

  /** The inner loop of the rejected status: `status += '[' + message + '] '` for each entry. */
  method AppendMessages(status: string, entries: seq<ErrorEntry>) returns (extended: string)
    ensures extended == status + BracketedMessages(entries)
  {
    extended := status;
    for j := 0 to |entries|
      invariant extended == status + BracketedMessages(entries[..j])
    {
      BracketedMessagesStep(entries, j);
      extended := extended + Bracket(entries[j].message);
      assert extended == status + (BracketedMessages(entries[..j]) + Bracket(entries[j].message));
    }
    assert entries[..|entries|] == entries;
  }

  lemma BracketedMessagesStep(entries: seq<ErrorEntry>, j: nat)
    requires j < |entries|
    ensures BracketedMessages(entries[..j + 1]) == BracketedMessages(entries[..j]) + Bracket(entries[j].message)
  {
    assert entries[..j + 1][..j] == entries[..j];
  }

  lemma ErrorDetailStep(errors: seq<seq<ErrorEntry>>, i: nat)
    requires i < |errors|
    ensures ErrorDetail(errors[..i + 1]) == ErrorDetail(errors[..i]) + BracketedMessages(errors[i])
  {
    assert errors[..i + 1][..i] == errors[..i];
  }

  /** All error entries, list after list. */
  function Flatten(errors: seq<seq<ErrorEntry>>): seq<ErrorEntry>
  {
    if errors == [] then [] else Flatten(errors[..|errors| - 1]) + errors[|errors| - 1]
  }

  lemma {:induction false} BracketedMessagesAppend(a: seq<ErrorEntry>, b: seq<ErrorEntry>)
    ensures BracketedMessages(a + b) == BracketedMessages(a) + BracketedMessages(b)
    decreases |b|
  {
    if b == [] {
      assert a + b == a;
    } else {
      var n := |b| - 1;
      assert (a + b)[..|a + b| - 1] == a + b[..n];
      assert (a + b)[|a + b| - 1] == b[n];
      calc {
        BracketedMessages(a + b);
        BracketedMessages(a + b[..n]) + Bracket(b[n].message);
        { BracketedMessagesAppend(a, b[..n]); }
        (BracketedMessages(a) + BracketedMessages(b[..n])) + Bracket(b[n].message);
        { ConcatAssoc(BracketedMessages(a), BracketedMessages(b[..n]), Bracket(b[n].message)); }
        BracketedMessages(a) + (BracketedMessages(b[..n]) + Bracket(b[n].message));
        BracketedMessages(a) + BracketedMessages(b);
      }
    }
  }

  lemma {:induction false} ErrorDetailAppend(a: seq<seq<ErrorEntry>>, b: seq<seq<ErrorEntry>>)
    ensures ErrorDetail(a + b) == ErrorDetail(a) + ErrorDetail(b)
    decreases |b|
  {
    if b == [] {
      assert a + b == a;
    } else {
      var n := |b| - 1;
      assert (a + b)[..|a + b| - 1] == a + b[..n];
      assert (a + b)[|a + b| - 1] == b[n];
      calc {
        ErrorDetail(a + b);
        ErrorDetail(a + b[..n]) + BracketedMessages(b[n]);
        { ErrorDetailAppend(a, b[..n]); }
        (ErrorDetail(a) + ErrorDetail(b[..n])) + BracketedMessages(b[n]);
        { ConcatAssoc(ErrorDetail(a), ErrorDetail(b[..n]), BracketedMessages(b[n])); }
        ErrorDetail(a) + (ErrorDetail(b[..n]) + BracketedMessages(b[n]));
        ErrorDetail(a) + ErrorDetail(b);
      }
    }
  }

  /** The nested loop appends exactly the messages of all entries, in provider order. */
  lemma {:induction false} ErrorDetailIsFlatMessages(errors: seq<seq<ErrorEntry>>)
    ensures ErrorDetail(errors) == BracketedMessages(Flatten(errors))
    decreases |errors|
  {
    if errors != [] {
      var n := |errors| - 1;
      ErrorDetailIsFlatMessages(errors[..n]);
      BracketedMessagesAppend(Flatten(errors[..n]), errors[n]);
    }
  }

  lemma BracketedMessagesSplit(es: seq<ErrorEntry>, j: nat)
    requires j < |es|
    ensures BracketedMessages(es) == BracketedMessages(es[..j]) + Bracket(es[j].message) + BracketedMessages(es[j + 1..])
  {
    assert es == es[..j + 1] + es[j + 1..];
    BracketedMessagesAppend(es[..j + 1], es[j + 1..]);
    BracketedMessagesStep(es, j);
  }

  lemma ErrorDetailSplit(errors: seq<seq<ErrorEntry>>, i: nat)
    requires i < |errors|
    ensures ErrorDetail(errors) == ErrorDetail(errors[..i]) + BracketedMessages(errors[i]) + ErrorDetail(errors[i + 1..])
  {
    assert errors == errors[..i + 1] + errors[i + 1..];
    ErrorDetailAppend(errors[..i + 1], errors[i + 1..]);
    ErrorDetailStep(errors, i);
  }

  /**
   * Every message of every error entry appears, bracketed, in the detail:
   * the detail is what precedes it, the message, and what follows it.
   */
  lemma ErrorDetailMentionsEveryMessage(errors: seq<seq<ErrorEntry>>, i: nat, j: nat)
    returns (before: string, after: string)
    requires i < |errors| && j < |errors[i]|
    ensures ErrorDetail(errors) == before + Bracket(errors[i][j].message) + after
  {
    var es := errors[i];
    var m := Bracket(es[j].message);
    var a, b1, b2, c := ErrorDetail(errors[..i]), BracketedMessages(es[..j]), BracketedMessages(es[j + 1..]),
                        ErrorDetail(errors[i + 1..]);
    ErrorDetailSplit(errors, i);
    BracketedMessagesSplit(es, j);
    assert ErrorDetail(errors) == a + (b1 + m + b2) + c;
    Regroup(a, b1, m, b2, c);
    before := a + b1;
    after := b2 + c;
  }

  // ---------------------------------------------------------------------
  // retrieve_twitter_user_info
  // ---------------------------------------------------------------------

  /** `twitter_json`: its initial empty list, the empty dict of a missing variable, or the record. */
  datatype TwitterJson = EmptyList | EmptyDict | Record(profile: Profile)

  /** The `results` dict of a lookup. */
  datatype LookupResult = LookupResult(
    status: string,
    success: bool,
    twitterHandle: string,
    twitterHandleFound: bool,
    twitterJson: TwitterJson)

  /**
   * retrieve_twitter_user_info. Besides the result, returns the provider
   * call that was made (None: the provider was not consulted) and the
   * messages passed to `handle_exception`, in order.
   */
  method RetrieveTwitterUserInfo(userId: Option<int>, handleArg: HandleArg, provider: Request -> ProviderOutcome)
    returns (r: LookupResult, call: Option<Request>, reports: seq<string>)
    ensures r.twitterHandle == NormaliseHandle(handleArg)
    ensures call == ResolveRequest(userId, r.twitterHandle)
    // missing variable: the provider is not consulted
    ensures call.None? ==>
              && !r.success && !r.twitterHandleFound && r.twitterJson == EmptyDict
              && r.status == MissingVariableStatus && reports == []
    // success
    ensures call.Some? && provider(call.value).Found? ==>
              && r.success && r.twitterHandleFound
              && r.twitterJson == Record(provider(call.value).profile)
              && r.status == SuccessStatus(call.value) && reports == []
    // rate limited: reported once, not raised
    ensures call.Some? && provider(call.value).RateLimited? ==>
              && !r.success && !r.twitterHandleFound && r.twitterJson == EmptyList
              && r.status == RateLimitStatus && reports == [r.status]
    // rejected: the status carries the identifiers and every message
    ensures call.Some? && provider(call.value).Rejected? ==>
              && !r.success && !r.twitterHandleFound && r.twitterJson == EmptyList
              && r.status == RejectedStatusPrefix(r.twitterHandle, userId) + ErrorDetail(provider(call.value).errors)
              && reports == [r.status]
    ensures r.success <==> call.Some? && provider(call.value).Found?
  {
    var handle := NormaliseHandle(handleArg);
    var handleFound := false;
    var json := EmptyList;
    var success: bool;
    var status: string;
    reports := [];
    call := ResolveRequest(userId, handle);
    match call {
      case None =>
        json := EmptyDict;
        success := false;
        status := MissingVariableStatus;
        handleFound := false;
      case Some(q) =>
        var outcome := provider(q);
        match outcome {
          case Found(profile) =>
            json := Record(profile);
            success := true;
            status := SuccessStatus(q);
            handleFound := true;
          case RateLimited =>
            success := false;
            status := RateLimitStatus;
            reports := reports + [status];
          case Rejected(errors) =>
            success := false;
            status := BuildRejectedStatus(handle, userId, errors);
            reports := reports + [status];
        }
    }
    r := LookupResult(status, success, handle, handleFound, json);
  }

  // ---------------------------------------------------------------------
  // retrieve_twitter_user_possibilities
  // ---------------------------------------------------------------------

  /** One user of the search results: its follower count and its raw record. */
  datatype Candidate = Candidate(followersCount: nat, twitterJson: Profile)

  /** One entry of `possible_twitter_handles_list`. */
  datatype PossibleHandle = PossibleHandle(searchTerm: string, likelihoodPercentage: int, twitterJson: Profile)

  /** The `results` dict of a search. */
  datatype Possibilities = Possibilities(possibleTwitterHandlesList: seq<PossibleHandle>, success: bool)

  /** The ZeroDivisionError raised when every candidate has zero followers. */
  datatype SearchError = ZeroDivision

  /** `sum(candidate.followers_count for candidate in ...)`. */
  function TotalFollowers(cs: seq<Candidate>): (r: nat)
    ensures r == 0 <==> forall i :: 0 <= i < |cs| ==> cs[i].followersCount == 0
  {
    if cs == [] then 0 else cs[0].followersCount + TotalFollowers(cs[1..])
  }

  predicate NonIncreasingFollowers(cs: seq<Candidate>)
  {
    forall i, j :: 0 <= i <= j < |cs| ==> cs[j].followersCount <= cs[i].followersCount
  }

  /** The candidates with exactly `k` followers, in their order in `cs`. */
  function WithFollowers(cs: seq<Candidate>, k: nat): seq<Candidate>
  {
    if cs == [] then []
    else (if cs[0].followersCount == k then [cs[0]] else []) + WithFollowers(cs[1..], k)
  }

  /**
   * Places `c` in a list ranked by follower count: after every candidate
   * with more followers, before every candidate with as many or fewer.
   */
  function InsertByFollowers(c: Candidate, ranked: seq<Candidate>): (r: seq<Candidate>)
    ensures |r| == |ranked| + 1
  {
    if ranked == [] || ranked[0].followersCount <= c.followersCount then [c] + ranked
    else [ranked[0]] + InsertByFollowers(c, ranked[1..])
  }

  /**
   * `search_results.sort(key=followers_count, reverse=True)`: Python's sort is
   * stable also when reversed, so equal counts keep their provider order.
   */
  function SortByFollowersDescending(cs: seq<Candidate>): (r: seq<Candidate>)
    ensures |r| == |cs|
  {
    if cs == [] then [] else InsertByFollowers(cs[0], SortByFollowersDescending(cs[1..]))
  }

  lemma {:induction false} InsertByFollowersHead(c: Candidate, ranked: seq<Candidate>)
    ensures InsertByFollowers(c, ranked)[0] == c
            || (ranked != [] && InsertByFollowers(c, ranked)[0] == ranked[0])
  {
  }

  lemma {:induction false} InsertByFollowersSorted(c: Candidate, ranked: seq<Candidate>)
    requires NonIncreasingFollowers(ranked)
    ensures NonIncreasingFollowers(InsertByFollowers(c, ranked))
    decreases |ranked|
  {
    if ranked != [] && ranked[0].followersCount > c.followersCount {
      var rest := InsertByFollowers(c, ranked[1..]);
      InsertByFollowersSorted(c, ranked[1..]);
      InsertByFollowersHead(c, ranked[1..]);
      var r := [ranked[0]] + rest;
      forall i, j | 0 <= i <= j < |r|
        ensures r[j].followersCount <= r[i].followersCount
      {
        if i == 0 && j > 0 {
          assert rest[0].followersCount <= ranked[0].followersCount;
          assert r[j] == rest[j - 1];
        }
      }
    }
  }

  lemma {:induction false} InsertByFollowersMultiset(c: Candidate, ranked: seq<Candidate>)
    ensures multiset(InsertByFollowers(c, ranked)) == multiset(ranked) + multiset{c}
    decreases |ranked|
  {
    if ranked != [] && ranked[0].followersCount > c.followersCount {
      InsertByFollowersMultiset(c, ranked[1..]);
      assert ranked == [ranked[0]] + ranked[1..];
    }
  }

  lemma WithFollowersCons(x: Candidate, t: seq<Candidate>, k: nat)
    ensures WithFollowers([x] + t, k) == (if x.followersCount == k then [x] else []) + WithFollowers(t, k)
  {
    assert ([x] + t)[1..] == t;
  }

  lemma {:induction false} InsertByFollowersStable(c: Candidate, ranked: seq<Candidate>, k: nat)
    ensures WithFollowers(InsertByFollowers(c, ranked), k)
            == (if c.followersCount == k then [c] else []) + WithFollowers(ranked, k)
    decreases |ranked|
  {
    if ranked == [] || ranked[0].followersCount <= c.followersCount {
      WithFollowersCons(c, ranked, k);
    } else {
      var head, tail := ranked[0], ranked[1..];
      InsertByFollowersStable(c, tail, k);
      WithFollowersCons(head, InsertByFollowers(c, tail), k);
      assert ranked == [head] + tail;
      WithFollowersCons(head, tail, k);
      if c.followersCount == k {
        assert head.followersCount != k;
      }
    }
  }

  lemma {:induction false} InsertByFollowersTotal(c: Candidate, ranked: seq<Candidate>)
    ensures TotalFollowers(InsertByFollowers(c, ranked)) == c.followersCount + TotalFollowers(ranked)
    decreases |ranked|
  {
    var r := InsertByFollowers(c, ranked);
    if ranked == [] || ranked[0].followersCount <= c.followersCount {
      assert r[1..] == ranked;
    } else {
      InsertByFollowersTotal(c, ranked[1..]);
      assert r[1..] == InsertByFollowers(c, ranked[1..]);
    }
  }

  lemma {:induction false} SortSorted(cs: seq<Candidate>)
    ensures NonIncreasingFollowers(SortByFollowersDescending(cs))
    decreases |cs|
  {
    if cs != [] {
      SortSorted(cs[1..]);
      InsertByFollowersSorted(cs[0], SortByFollowersDescending(cs[1..]));
    }
  }

  lemma {:induction false} SortMultiset(cs: seq<Candidate>)
    ensures multiset(SortByFollowersDescending(cs)) == multiset(cs)
    decreases |cs|
  {
    if cs != [] {
      SortMultiset(cs[1..]);
      InsertByFollowersMultiset(cs[0], SortByFollowersDescending(cs[1..]));
      assert cs == [cs[0]] + cs[1..];
    }
  }

  lemma {:induction false} SortStable(cs: seq<Candidate>, k: nat)
    ensures WithFollowers(SortByFollowersDescending(cs), k) == WithFollowers(cs, k)
    decreases |cs|
  {
    if cs != [] {
      SortStable(cs[1..], k);
      InsertByFollowersStable(cs[0], SortByFollowersDescending(cs[1..]), k);
    }
  }

  lemma {:induction false} SortTotal(cs: seq<Candidate>)
    ensures TotalFollowers(SortByFollowersDescending(cs)) == TotalFollowers(cs)
    decreases |cs|
  {
    if cs != [] {
      SortTotal(cs[1..]);
      InsertByFollowersTotal(cs[0], SortByFollowersDescending(cs[1..]));
    }
  }

  /**
   * The ranking is ordered by follower count (non-increasing), is a
   * permutation of the search results, keeps the provider order among
   * candidates with equal counts, and keeps the follower total.
   */
  lemma SortByFollowersDescendingCorrect(cs: seq<Candidate>)
    ensures NonIncreasingFollowers(SortByFollowersDescending(cs))
    ensures multiset(SortByFollowersDescending(cs)) == multiset(cs)
    ensures forall k: nat :: WithFollowers(SortByFollowersDescending(cs), k) == WithFollowers(cs, k)
    ensures TotalFollowers(SortByFollowersDescending(cs)) == TotalFollowers(cs)
  {
    SortSorted(cs);
    SortMultiset(cs);
    SortTotal(cs);
    forall k: nat
      ensures WithFollowers(SortByFollowersDescending(cs), k) == WithFollowers(cs, k)
    {
      SortStable(cs, k);
    }
  }

  /** int(followers / denom * 100), computed exactly. */
  function LikelihoodPercentage(followers: nat, denom: nat): (r: nat)
    requires denom > 0
    ensures IsFloorQuotient(r, followers * 100, denom)
  {
    var n := followers * 100;
    FloorQuotient(n, denom);
    n / denom
  }

  /** Floor division facts for non-negative operands, proved from Euclidean division. */
  lemma MulCancelLess(a: int, b: int, d: int)
    requires d > 0 && a * d < b * d
    ensures a < b
  {
  }

  /** Any `q` with `q * d <= n` is at most `n / d`. */
  lemma DivLowerBound(n: nat, d: nat, q: nat)
    requires d > 0 && q * d <= n
    ensures q <= n / d
  {
    var k := n / d;
    assert n == k * d + n % d;
    assert (k + 1) * d == k * d + d;
    assert n < (k + 1) * d;
    MulCancelLess(q, k + 1, d);
  }

  /** The floor quotient times the divisor never exceeds the dividend. */
  lemma DivTimesDivisor(n: nat, d: nat)
    requires d > 0
    ensures (n / d) * d <= n
  {
    assert n == (n / d) * d + n % d;
  }

  /** `q` is the floor of `n / d`: its multiple is at most `n`, the next multiple is above it. */
  predicate IsFloorQuotient(q: int, n: int, d: int)
  {
    q * d <= n < (q + 1) * d
  }

  /** `n / d` is the floor of the quotient: its multiple is at most `n`, the next one above it. */
  lemma FloorQuotient(n: nat, d: nat)
    requires d > 0
    ensures IsFloorQuotient(n / d, n, d)
  {
    DivTimesDivisor(n, d);
    DivBelowNext(n, d);
  }

  /** The dividend lies below the next multiple after the floor quotient. */
  lemma DivBelowNext(n: nat, d: nat)
    requires d > 0
    ensures n < (n / d + 1) * d
  {
    assert n == (n / d) * d + n % d;
    MulDistributes(n / d, 1, d);
  }

  lemma MulDistributes(a: int, b: int, d: int)
    ensures (a + b) * d == a * d + b * d
  {
  }

  lemma DivMonotone(x: nat, y: nat, d: nat)
    requires x <= y && d > 0
    ensures x / d <= y / d
  {
    DivTimesDivisor(x, d);
    DivLowerBound(y, d, x / d);
  }

  lemma SumOfBounds(a: int, b: int, x: int, y: int, d: int)
    requires a * d <= x && b * d <= y
    ensures (a + b) * d <= x + y
  {
    MulDistributes(a, b, d);
  }

  lemma DivSuperAdditive(x: nat, y: nat, d: nat)
    requires d > 0
    ensures x / d + y / d <= (x + y) / d
  {
    DivTimesDivisor(x, d);
    DivTimesDivisor(y, d);
    SumOfBounds(x / d, y / d, x, y, d);
    DivLowerBound(x + y, d, x / d + y / d);
  }

  /** Multiplying by `d` and then dividing by `d` gives back the number. */
  lemma MulDivCancel(a: nat, d: nat)
    requires d > 0
    ensures (a * d) / d == a
  {
    DivLowerBound(a * d, d, a);
    DivTimesDivisor(a * d, d);
    MulDistributes(a, 1, d);
    MulCancelLess((a * d) / d, a + 1, d);
  }

  lemma WholeIsHundredPercent(total: nat)
    requires total > 0
    ensures (total * 100) / total == 100
  {
    assert total * 100 == 100 * total;
    MulDivCancel(100, total);
  }

  /** A share of the total lies in 0..100, and more followers never give a smaller share. */
  lemma LikelihoodPercentageBoundsAndOrder(a: nat, b: nat, denom: nat)
    requires denom > 0 && a <= b <= denom
    ensures 0 <= LikelihoodPercentage(a, denom) <= LikelihoodPercentage(b, denom) <= 100
  {
    DivMonotone(a * 100, b * 100, denom);
    DivMonotone(b * 100, denom * 100, denom);
    WholeIsHundredPercent(denom);
  }

  lemma {:induction false} FollowersWithinTotal(cs: seq<Candidate>, i: nat)
    requires i < |cs|
    ensures cs[i].followersCount <= TotalFollowers(cs)
    decreases |cs|
  {
    if i > 0 {
      FollowersWithinTotal(cs[1..], i - 1);
    }
  }

  /** The sum of the percentages of `cs`, each against `denom`. */
  function PercentageSum(cs: seq<Candidate>, denom: nat): int
    requires denom > 0
  {
    if cs == [] then 0
    else LikelihoodPercentage(cs[0].followersCount, denom) + PercentageSum(cs[1..], denom)
  }

  lemma {:induction false} PercentageSumBound(cs: seq<Candidate>, denom: nat)
    requires denom > 0
    ensures PercentageSum(cs, denom) <= (TotalFollowers(cs) * 100) / denom
    decreases |cs|
  {
    if cs != [] {
      PercentageSumBound(cs[1..], denom);
      DivSuperAdditive(cs[0].followersCount * 100, TotalFollowers(cs[1..]) * 100, denom);
      assert cs[0].followersCount * 100 + TotalFollowers(cs[1..]) * 100 == TotalFollowers(cs) * 100;
    }
  }

  /**
   * Against the shared denominator the percentages add up to at most 100
   * (truncation can lose some, never add).
   */
  lemma LikelihoodsSumAtMost100(cs: seq<Candidate>)
    requires TotalFollowers(cs) > 0
    ensures PercentageSum(cs, TotalFollowers(cs)) <= 100
  {
    PercentageSumBound(cs, TotalFollowers(cs));
    WholeIsHundredPercent(TotalFollowers(cs));
  }

  /**
   * retrieve_twitter_user_possibilities, given what `api.search_users`
   * returned. The ranking is the stable descending sort; every entry is
   * tagged with the search term and its share of the shared total.
   */
  method RetrieveTwitterUserPossibilities(searchResults: seq<Candidate>, fullName: string := "")
    returns (r: Result<Possibilities, SearchError>)
    ensures r.Failure? <==> |searchResults| > 0 && TotalFollowers(searchResults) == 0
    ensures r.Success? ==>
              var list := r.value.possibleTwitterHandlesList;
              var ranked := SortByFollowersDescending(searchResults);
              && |list| == |searchResults|
              && (r.value.success <==> |list| > 0)
              && (forall i :: 0 <= i < |list| ==>
                    && list[i].searchTerm == fullName
                    && list[i].twitterJson == ranked[i].twitterJson
                    && list[i].likelihoodPercentage
                       == LikelihoodPercentage(ranked[i].followersCount, TotalFollowers(searchResults))
                    && 0 <= list[i].likelihoodPercentage <= 100)
              && (forall i, j :: 0 <= i <= j < |list| ==>
                    list[j].likelihoodPercentage <= list[i].likelihoodPercentage)
  {
    var ranked := SortByFollowersDescending(searchResults);
    SortSorted(searchResults);
    SortTotal(searchResults);
    var denom := TotalFollowers(ranked);
    if |ranked| > 0 && denom == 0 {
      return Failure(ZeroDivision);
    }
    var list: seq<PossibleHandle> := [];
    for i := 0 to |ranked|
      invariant |list| == i
      invariant forall k :: 0 <= k < i ==>
                  list[k] == PossibleHandle(fullName, LikelihoodPercentage(ranked[k].followersCount, denom),
                                            ranked[k].twitterJson)
    {
      var oneResult := ranked[i];
      list := list + [PossibleHandle(fullName, LikelihoodPercentage(oneResult.followersCount, denom),
                                     oneResult.twitterJson)];
    }
    forall i, j | 0 <= i <= j < |list|
      ensures 0 <= list[j].likelihoodPercentage <= list[i].likelihoodPercentage <= 100
    {
      FollowersWithinTotal(ranked, i);
      LikelihoodPercentageBoundsAndOrder(ranked[j].followersCount, ranked[i].followersCount, denom);
    }
    r := Success(Possibilities(list, |list| > 0));
  }

  /**
   * Three users with 100, 300 and 100 followers rank as 300, then the two
   * hundreds in provider order, with shares 60, 20 and 20.
   */
  lemma RankingExample(a: Profile, b: Profile, c: Profile)
    ensures SortByFollowersDescending([Candidate(100, a), Candidate(300, b), Candidate(100, c)])
            == [Candidate(300, b), Candidate(100, a), Candidate(100, c)]
    ensures TotalFollowers([Candidate(100, a), Candidate(300, b), Candidate(100, c)]) == 500
    ensures LikelihoodPercentage(300, 500) == 60 && LikelihoodPercentage(100, 500) == 20
  {
    var s := [Candidate(100, a), Candidate(300, b), Candidate(100, c)];
    var ca, cb, cc := Candidate(100, a), Candidate(300, b), Candidate(100, c);
    assert s[1..] == [cb, cc] && [cb, cc][1..] == [cc] && [cc][1..] == [];
    assert SortByFollowersDescending([cc]) == InsertByFollowers(cc, []) == [cc];
    assert SortByFollowersDescending([cb, cc]) == InsertByFollowers(cb, [cc]) == [cb, cc];
    assert InsertByFollowers(ca, [cc]) == [ca, cc];
    assert InsertByFollowers(ca, [cb, cc]) == [cb] + InsertByFollowers(ca, [cc]);
    assert TotalFollowers([cc]) == 100;
    assert TotalFollowers([cb, cc]) == 400;
  }
}
