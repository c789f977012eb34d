/** The video library page: the catalog filter, the video modal and the favorite toggle. */
module Videos {
  import opened Wrappers
  import opened Text
  import opened Seqs
  import opened Catalog

  /** The values of the category select, the difficulty select and the search box;
      the empty string is "no choice". */
  datatype Criteria = Criteria(category: string, difficulty: string, search: string)

  /** The predicate `applyFilters` hands to `filter`. */
  predicate Matches(v: Video, c: Criteria)
  {
    var term := ToLower(c.search);
    && (c.category == "" || v.category == c.category)
    && (c.difficulty == "" || v.difficultyLevel == c.difficulty)
    && (term == ""
        || Includes(ToLower(v.title), term)
        || Includes(ToLower(v.description), term)
        || Includes(ToLower(v.instructorName), term))
  }

  /** A search term hits a field when, both lower-cased, the term is a substring of the field. */
  ghost predicate SearchHits(search: string, field: string)
  {
    IsSubstring(ToLower(search), ToLower(field))
  }

  /** The filter criterion stated without reference to how substrings are searched. */
  ghost predicate Selected(v: Video, c: Criteria)
  {
    && (c.category == "" || v.category == c.category)
    && (c.difficulty == "" || v.difficultyLevel == c.difficulty)
    && (c.search == ""
        || SearchHits(c.search, v.title)
        || SearchHits(c.search, v.description)
        || SearchHits(c.search, v.instructorName))
  }

  /** A video passes the filter iff each of the three criteria is unset or met; one of the
      three text fields containing the search term suffices. */
  lemma MatchesIffSelected(v: Video, c: Criteria)
    ensures Matches(v, c) <==> Selected(v, c)
  {
    var term := ToLower(c.search);
    IncludesIff(ToLower(v.title), term);
    IncludesIff(ToLower(v.description), term);
    IncludesIff(ToLower(v.instructorName), term);
  }

  /** The arrow `video => matchCategory && matchDifficulty && matchSearch`. */
  function Matcher(c: Criteria): (p: Video -> bool)
  {
    (v: Video) => Matches(v, c)
  }

  /** `applyFilters`: the catalog narrowed to the videos the criteria select. */
  function ApplyFilters(allVideos: seq<Video>, c: Criteria): (r: seq<Video>)
    ensures |r| <= |allVideos|
  {
    Filter(allVideos, Matcher(c))
  }

  /** The result is a subsequence of the catalog: nothing is added or reordered. */
  lemma ApplyFiltersKeepsOrder(allVideos: seq<Video>, c: Criteria)
    ensures IsSubsequence(ApplyFilters(allVideos, c), allVideos)
  {
    FilterIsSubsequence(allVideos, Matcher(c));
  }

  /** A video is shown iff it is in the catalog and the criteria select it; a selected video
      is shown as many times as it is listed. */
  lemma ApplyFiltersExactly(allVideos: seq<Video>, c: Criteria, v: Video)
    ensures v in ApplyFilters(allVideos, c) <==> v in allVideos && Selected(v, c)
    ensures multiset(ApplyFilters(allVideos, c))[v] == if Selected(v, c) then multiset(allVideos)[v] else 0
  {
    FilterMembership(allVideos, Matcher(c), v);
    FilterMultiplicity(allVideos, Matcher(c), v);
    MatchesIffSelected(v, c);
  }

  /** With no category, no difficulty and no search term the whole catalog is shown. */
  lemma ApplyFiltersNoCriteria(allVideos: seq<Video>)
    ensures ApplyFilters(allVideos, Criteria("", "", "")) == allVideos
  {
    FilterKeepsAll(allVideos, Matcher(Criteria("", "", "")));
  }

  /** Search ignores letter case: two search terms that lower-case alike (for instance
      "FLOW", "Flow" and "flow") show the same videos. */
  lemma ApplyFiltersIgnoresCase(allVideos: seq<Video>, c: Criteria, search: string)
    requires ToLower(search) == ToLower(c.search)
    ensures ApplyFilters(allVideos, c.(search := search)) == ApplyFilters(allVideos, c)
  {
    FilterAgrees(allVideos, Matcher(c.(search := search)), Matcher(c));
  }

  /** Lower-casing the term before filtering, as `applyFilters` does, changes nothing. */
  lemma ApplyFiltersLoweredTerm(allVideos: seq<Video>, c: Criteria)
    ensures ApplyFilters(allVideos, c.(search := ToLower(c.search))) == ApplyFilters(allVideos, c)
  {
    ToLowerIdempotent(c.search);
    ApplyFiltersIgnoresCase(allVideos, c, ToLower(c.search));
  }

  /** The search term "flow" is found in the title "Yoga Flow" regardless of case. */
  lemma FlowHitsYogaFlow()
    ensures SearchHits("flow", "Yoga Flow")
  {
    var field := "Yoga Flow";
    var t := ToLower(field);
    assert ToLower("flow") == "flow";
    assert t[5] == LowerChar(field[5]) == 'f';
    assert t[6] == LowerChar(field[6]) == 'l';
    assert t[7] == LowerChar(field[7]) == 'o';
    assert t[8] == LowerChar(field[8]) == 'w';
    assert t[5..9] == "flow";
    assert OccursAt(t, "flow", 5);
  }

  /** ... and neither in "HIIT Blast" nor in an empty field. */
  lemma FlowMissesHiitBlast()
    ensures !SearchHits("flow", "HIIT Blast") && !SearchHits("flow", "")
  {
    NoLowerF("HIIT Blast");
    NoLowerF("");
  }

  /** A field without an `f` or `F` is never hit by the search "flow". */
  lemma NoLowerF(field: string)
    requires forall k :: 0 <= k < |field| ==> field[k] != 'f' && field[k] != 'F'
    ensures !SearchHits("flow", field)
  {
    var t := ToLower(field);
    assert ToLower("flow") == "flow";
    forall i
      ensures !OccursAt(t, "flow", i)
    {
      if 0 <= i && i + 4 <= |t| {
        assert t[i..i + 4][0] == t[i] == LowerChar(field[i]);
      }
    }
  }

  /** The term "FLOW" lowers to "flow". */
  lemma UpperFlowLowers()
    ensures ToLower("FLOW") == ToLower("flow")
  {
    var up, low := ToLower("FLOW"), ToLower("flow");
    assert up[0] == LowerChar('F') == 'f' == low[0];
    assert up[1] == LowerChar('L') == 'l' == low[1];
    assert up[2] == LowerChar('O') == 'o' == low[2];
    assert up[3] == LowerChar('W') == 'w' == low[3];
  }

  /** Two-video catalog: filtering by category "yoga" leaves only "Yoga Flow". */
  lemma ApplyFiltersCategoryExample()
    ensures var yoga := Video("1", "Yoga Flow", "", "", 30, "beginner", "yoga", None);
            var hiit := Video("2", "HIIT Blast", "", "", 20, "advanced", "cardio", None);
            ApplyFilters([yoga, hiit], Criteria("yoga", "", "")) == [yoga]
  {
    var yoga := Video("1", "Yoga Flow", "", "", 30, "beginner", "yoga", None);
    var hiit := Video("2", "HIIT Blast", "", "", 20, "advanced", "cardio", None);
    assert [yoga, hiit][1..] == [hiit];
  }

  /** The same catalog: searching "FLOW" leaves only "Yoga Flow", matched through its title
      whatever the case of the term. */
  lemma ApplyFiltersSearchExample()
    ensures var yoga := Video("1", "Yoga Flow", "", "", 30, "beginner", "yoga", None);
            var hiit := Video("2", "HIIT Blast", "", "", 20, "advanced", "cardio", None);
            ApplyFilters([yoga, hiit], Criteria("", "", "FLOW")) == [yoga]
  {
    var yoga := Video("1", "Yoga Flow", "", "", 30, "beginner", "yoga", None);
    var hiit := Video("2", "HIIT Blast", "", "", 20, "advanced", "cardio", None);
    var c := Criteria("", "", "flow");
    UpperFlowLowers();
    ApplyFiltersIgnoresCase([yoga, hiit], c, "FLOW");
    FlowHitsYogaFlow();
    FlowMissesHiitBlast();
    MatchesIffSelected(yoga, c);
    MatchesIffSelected(hiit, c);
    assert Matches(yoga, c) && !Matches(hiit, c);
    assert [yoga, hiit][1..] == [hiit];
  }

  /** The arrow `v => v.id === videoId`. */
  function HasId(id: string): (p: Video -> bool)
  {
    (v: Video) => v.id == id
  }

  /** One row of the backend's favorites relation, as this page sees it. */
  datatype Favorite = Favorite(userId: string, videoId: string)

  /** What a click on the favorite button led to. */
  datatype ToggleOutcome =
    | NoVideo                                              // no video is open: nothing happens
    | LoginPrompt                                          // no stored user id: the prompt, no request
    | Removal(userId: string, videoId: string, ok: bool)   // DELETE /favorites/{videoId} was sent
    | Addition(userId: string, videoId: string, ok: bool)  // POST /favorites was sent

  /** `checkIfFavorited`: `listOk` says whether `GET /favorites` answered with an ok status;
      a failed or thrown request reads as "not favorited". */
  function CheckIfFavorited(favorites: set<Favorite>, storedUserId: Option<string>, videoId: string, listOk: bool): (b: bool)
    ensures b ==> Truthy(storedUserId) && listOk
    ensures Truthy(storedUserId) && listOk ==> (b <==> Favorite(storedUserId.value, videoId) in favorites)
  {
    if !Truthy(storedUserId) then false
    else if !listOk then false
    else Favorite(storedUserId.value, videoId) in favorites
  }

  /** The request `toggleFavorite` sends, if any: `writeOk` is the answer to it. */
  function ToggleDecision(favorites: set<Favorite>, current: Option<Video>, storedUserId: Option<string>,
                          listOk: bool, writeOk: bool): (o: ToggleOutcome)
    ensures o == NoVideo <==> current.None?
    ensures o == LoginPrompt <==> current.Some? && !Truthy(storedUserId)
    ensures o.Removal? <==> current.Some? && CheckIfFavorited(favorites, storedUserId, current.value.id, listOk)
    ensures (o.Removal? || o.Addition?) ==>
      Truthy(storedUserId) && o.userId == storedUserId.value && o.videoId == current.value.id && o.ok == writeOk
  {
    if current.None? then NoVideo
    else if !Truthy(storedUserId) then LoginPrompt
    else if CheckIfFavorited(favorites, storedUserId, current.value.id, listOk) then
      Removal(storedUserId.value, current.value.id, writeOk)
    else
      Addition(storedUserId.value, current.value.id, writeOk)
  }

  /** The favorites relation once the backend has answered the toggle's request. */
  function AfterToggle(favorites: set<Favorite>, o: ToggleOutcome): (after: set<Favorite>)
  {
    match o
    case Removal(u, v, true) => favorites - {Favorite(u, v)}
    case Addition(u, v, true) => favorites + {Favorite(u, v)}
    case _ => favorites
  }

  /** A toggle whose requests all succeed flips the video's membership and touches nothing else. */
  lemma ToggleFlips(favorites: set<Favorite>, v: Video, userId: string)
    requires userId != ""
    ensures var f := AfterToggle(favorites, ToggleDecision(favorites, Some(v), Some(userId), true, true));
      && (Favorite(userId, v.id) in f <==> Favorite(userId, v.id) !in favorites)
      && f - {Favorite(userId, v.id)} == favorites - {Favorite(userId, v.id)}
  {
  }

  /** Two toggles whose requests all succeed restore the original favorites. */
  lemma {:induction false} ToggleTwiceRestores(favorites: set<Favorite>, v: Video, userId: string)
    requires userId != ""
    ensures var once := AfterToggle(favorites, ToggleDecision(favorites, Some(v), Some(userId), true, true));
      AfterToggle(once, ToggleDecision(once, Some(v), Some(userId), true, true)) == favorites
  {
    var key := Favorite(userId, v.id);
    ToggleFlips(favorites, v, userId);
    var once := AfterToggle(favorites, ToggleDecision(favorites, Some(v), Some(userId), true, true));
    ToggleFlips(once, v, userId);
    var twice := AfterToggle(once, ToggleDecision(once, Some(v), Some(userId), true, true));
    assert key in twice <==> key in favorites;
    assert twice - {key} == favorites - {key};
    assert forall f :: f in twice <==> f in favorites by {
      forall f ensures f in twice <==> f in favorites {
        if f != key {
          assert f in twice <==> f in twice - {key};
          assert f in favorites <==> f in favorites - {key};
        }
      }
    }
  }

  /** The module-level state of the library page. `favorites` stands for the backend's
      favorites relation, which the page changes only through its requests. */
  class VideoPage {
    var allVideos: seq<Video>
    var currentVideo: Option<Video>
    var modalOpen: bool
    var favorites: set<Favorite>

    constructor(favorites: set<Favorite>)
      ensures allVideos == [] && currentVideo == None && !modalOpen && this.favorites == favorites
    {
      allVideos := [];
      currentVideo := None;
      modalOpen := false;
      this.favorites := favorites;
    }

    /** `loadVideos`: an ok answer replaces the catalog; a failure leaves it as it was. */
    method LoadVideos(ok: bool, response: seq<Video>)
      modifies this`allVideos
      ensures allVideos == if ok then response else old(allVideos)
    {
      if ok {
        allVideos := response;
      }
    }

    /** `openVideoModal`: an unknown id does nothing; otherwise the first video with that id
        becomes the current one and the modal opens. */
    method OpenVideoModal(videoId: string)
      modifies this`currentVideo, this`modalOpen
      ensures FirstWhere(allVideos, HasId(videoId)).None? ==>
        currentVideo == old(currentVideo) && modalOpen == old(modalOpen)
      ensures FirstWhere(allVideos, HasId(videoId)).Some? ==>
        currentVideo == Some(allVideos[FirstWhere(allVideos, HasId(videoId)).value]) && modalOpen
      ensures currentVideo.Some? && currentVideo != old(currentVideo) ==>
        currentVideo.value in allVideos && currentVideo.value.id == videoId
    {
      var found := FirstWhere(allVideos, HasId(videoId));
      if found.None? {
        return;
      }
      currentVideo := Some(allVideos[found.value]);
      modalOpen := true;
    }

    /** `closeVideoModal`: hides the modal and forgets the current video. */
    method CloseVideoModal()
      modifies this`currentVideo, this`modalOpen
      ensures currentVideo == None && !modalOpen
    {
      modalOpen := false;
      currentVideo := None;
    }

    /** `toggleFavorite`: with no current video or no stored user id it sends nothing (only the
        latter prompts for a login); otherwise it asks whether the video is a favorite and sends
        a removal if so, an addition if not. `listOk` and `writeOk` are the backend's answers. */
    method ToggleFavorite(storedUserId: Option<string>, listOk: bool, writeOk: bool) returns (outcome: ToggleOutcome)
      modifies this`favorites
      ensures outcome == ToggleDecision(old(favorites), currentVideo, storedUserId, listOk, writeOk)
      ensures favorites == AfterToggle(old(favorites), outcome)
    {
      if currentVideo.None? {
        return NoVideo;
      }
      if !Truthy(storedUserId) {
        return LoginPrompt;
      }
      var userId := storedUserId.value;
      var videoId := currentVideo.value.id;
      var isFavorited := CheckIfFavorited(favorites, storedUserId, videoId, listOk);
      if isFavorited {
        outcome := Removal(userId, videoId, writeOk);
        if writeOk {
          favorites := favorites - {Favorite(userId, videoId)};
        }
      } else {
        outcome := Addition(userId, videoId, writeOk);
        if writeOk {
          favorites := favorites + {Favorite(userId, videoId)};
        }
      }
    }
  }
}
