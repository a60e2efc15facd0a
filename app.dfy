/**
 * The application component: its state hooks become the fields of
 * `AppState`, its handlers the methods, each stated against the pure
 * collection operations of `Stories` and the gate of `Moderation`.
 */
module App {
  import opened Wrappers
  import opened Strings
  import opened Types
  import opened Stories
  import opened Moderation

  /** The pending submission: trimmed text and nickname, and the attached image. */
  datatype Draft = Draft(text: string, nickname: string, image: Option<string>)

  /** What the `unsaid_stories` storage key holds: nothing, a story array, or unparseable text. */
  datatype StoredCollection = Absent | Saved(stories: seq<Story>) | Corrupt

  /** `toggleTheme`'s choice of the other theme. */
  function Toggled(t: Theme): (r: Theme)
    ensures r != t
  {
    if t == Light then Dark else Light
  }

  /** Toggling twice restores the theme. */
  lemma ToggleTwice(t: Theme)
    ensures Toggled(Toggled(t)) == t
  {
  }

  /** A seed story's stock image on the Unsplash photo service. */
  function SeedImage(photo: string): string {
    "https://images.unsplash.com/photo-" + photo + "?q=80&w=1200"
  }

  /** The seed stories' messages, signatures and stock photos, in order. */
  const SeedText1 := "I wish I told you how much your smile saved me this year."
  const SeedText2 := "To the person in the library, I was always rooting for you."
  const SeedText3 := "Leaving 2025 with no regrets, finally."
  const SeedName1 := "From: Secret Admirer"
  const SeedName3 := "To: My 2024 Self"
  const SeedPhoto1 := "1490806843957-31f4c9a91c65"
  const SeedPhoto2 := "1516979187457-637abb4f9353"
  const SeedPhoto3 := "1528698851218-472061269324"

  /** The three seed stories written when storage holds no collection. */
  function MockSeed(now: int): seq<Story> {
    [ Story("1", SeedText1, Some(SeedName1), Some(SeedImage(SeedPhoto1)), 42, 0, now - 86400000),
      Story("2", SeedText2, Some("Anonymous"), Some(SeedImage(SeedPhoto2)), 15, 0, now - 172800000),
      Story("3", SeedText3, Some(SeedName3), Some(SeedImage(SeedPhoto3)), 89, 0, now - 3600000) ]
  }

  /** `value || undefined`: an empty string counts as absent. */
  function NonEmpty(s: Option<string>): (r: Option<string>)
    ensures r.Some? <==> s.Some? && s.value != ""
    ensures r.Some? ==> r == s
  {
    if s.Some? && s.value != "" then s else None
  }

  /** The record `confirmSubmit` builds from a draft with a fresh id and the current time. */
  function NewStory(d: Draft, id: string, now: int): (s: Story)
    ensures s.messageBody == d.text && s.id == id && s.timestamp == now
    ensures s.reactionCount == 0 && s.reportCount == 0 && IsVisible(s)
    ensures s.nickname == NonEmpty(Some(d.nickname)) && s.imageUrl == d.image
  {
    Story(id, d.text, NonEmpty(Some(d.nickname)), d.image, 0, 0, now)
  }

  /** The alert shown on rejection: `moderation.reason || "Content flagged."`. */
  function AlertText(v: Verdict): (msg: string)
    ensures msg != ""
    ensures NonEmpty(v.reason).Some? ==> msg == v.reason.value
    ensures NonEmpty(v.reason).None? ==> msg == "Content flagged."
  {
    if NonEmpty(v.reason).Some? then v.reason.value else "Content flagged."
  }

  /** A freshly created story is on the wall under either ordering. */
  lemma NewStoryShown(d: Draft, id: string, now: int, stories: seq<Story>, filter: FilterType)
    ensures NewStory(d, id, now) in SortedView([NewStory(d, id, now)] + stories, filter)
  {
    SortedViewMembers([NewStory(d, id, now)] + stories, filter, NewStory(d, id, now));
  }

  /** A story created no earlier than every other one heads the latest wall. */
  lemma {:induction false} NewStoryFirstWhenLatest(d: Draft, id: string, now: int, stories: seq<Story>)
    requires forall i :: 0 <= i < |stories| ==> stories[i].timestamp <= now
    ensures SortedView([NewStory(d, id, now)] + stories, Latest)[0] == NewStory(d, id, now)
  {
    var n := NewStory(d, id, now);
    var all := [n] + stories;
    assert all[0] == n && all[1..] == stories;
    assert Visible(all) == [n] + Visible(stories);
    var rest := SortByKey(Latest, Visible(stories));
    assert SortByKey(Latest, [n] + Visible(stories)) == Insert(Latest, n, rest) by {
      assert ([n] + Visible(stories))[1..] == Visible(stories);
    }
    if rest != [] {
      assert rest[0] in multiset(Visible(stories));
      VisibleMultiset(stories, rest[0]);
      assert rest[0] in multiset(stories);
    }
    assert InsertPos(Latest, n, rest) == 0;
  }

  class AppState {
    var currentView: View
    var theme: Theme
    var stories: seq<Story>
    var filter: FilterType
    var showConfirm: bool
    var pending: Option<Draft>
    var imagePreview: Option<string>
    /** The `unsaid_stories` storage key. */
    var storedStories: StoredCollection
    /** The `unsaid_theme` storage key. */
    var storedTheme: Option<Theme>

    /**
     * The confirmation modal is open only over a pending draft, and a pending
     * draft always carries a non-empty, already trimmed message.
     */
    ghost predicate Valid()
      reads this
    {
      && (showConfirm ==> pending.Some?)
      && (pending.Some? ==> pending.value.text != "" && Trim(pending.value.text) == pending.value.text)
    }

    /**
     * The component as mounted: initial state, then the mount effect reading
     * the theme preference and the saved collection.
     */
    constructor (stored: StoredCollection, savedTheme: Option<Theme>, prefersDark: bool, now: int)
      ensures Valid()
      ensures currentView == Home && filter == Latest
      ensures !showConfirm && pending == None && imagePreview == None
      ensures theme == if savedTheme.Some? then savedTheme.value else if prefersDark then Dark else Light
      ensures stored.Saved? ==> stories == stored.stories
      ensures stored.Absent? ==> stories == MockSeed(now)
      ensures stored.Corrupt? ==> stories == []
      ensures storedStories == if stored.Absent? then Saved(MockSeed(now)) else stored
      ensures storedTheme == savedTheme
    {
      currentView := Home;
      filter := Latest;
      showConfirm := false;
      pending := None;
      imagePreview := None;
      storedTheme := savedTheme;
      if savedTheme.Some? {
        theme := savedTheme.value;
      } else if prefersDark {
        theme := Dark;
      } else {
        theme := Light;
      }
      match stored {
        case Saved(s) =>
          stories := s;
          storedStories := stored;
        case Absent =>
          var seed := MockSeed(now);
          stories := seed;
          storedStories := Saved(seed);
        case Corrupt =>
          stories := [];
          storedStories := stored;
      }
    }

    /** `toggleTheme`: switch theme and persist the choice. */
    method ToggleTheme()
      requires Valid()
      modifies this`theme, this`storedTheme
      ensures Valid()
      ensures theme == Toggled(old(theme)) && storedTheme == Some(theme)
    {
      theme := Toggled(theme);
      storedTheme := Some(theme);
    }

    /** `handleLeaveMark`: hug every story with the id, and write the collection through. */
    method LeaveMark(id: string)
      requires Valid()
      modifies this`stories, this`storedStories
      ensures Valid()
      ensures stories == React(old(stories), id) && storedStories == Saved(stories)
    {
      stories := React(stories, id);
      storedStories := Saved(stories);
    }

    /** `handleReport`: report every story with the id, and write the collection through. */
    method ReportStory(id: string)
      requires Valid()
      modifies this`stories, this`storedStories
      ensures Valid()
      ensures stories == Report(old(stories), id) && storedStories == Saved(stories)
    {
      stories := Report(stories, id);
      storedStories := Saved(stories);
    }

    /** `handleFileChange`: the data URL read from the chosen file becomes the preview. */
    method AttachImage(dataUrl: string)
      requires Valid()
      modifies this`imagePreview
      ensures Valid()
      ensures imagePreview == Some(dataUrl)
    {
      imagePreview := Some(dataUrl);
    }

    /**
     * `handleSubmit`: a blank message is ignored; otherwise the trimmed
     * draft becomes pending and the confirmation modal opens.
     */
    method SubmitForm(message: string, nickname: string)
      requires Valid()
      modifies this`pending, this`showConfirm
      ensures Valid()
      ensures AllSpace(message) ==> pending == old(pending) && showConfirm == old(showConfirm)
      ensures !AllSpace(message) ==>
                showConfirm && pending == Some(Draft(Trim(message), Trim(nickname), NonEmpty(imagePreview)))
    {
      var text := Trim(message);
      TrimEmptyIff(message);
      if text == "" {
        return;
      }
      TrimIdempotent(message);
      pending := Some(Draft(text, Trim(nickname), NonEmpty(imagePreview)));
      showConfirm := true;
    }

    /** "Stay Silent": the modal closes; the pending draft is kept. */
    method CancelConfirm()
      requires Valid()
      modifies this`showConfirm
      ensures Valid() && !showConfirm
    {
      showConfirm := false;
    }

    /**
     * `confirmSubmit`: without a pending draft nothing happens. Otherwise the
     * draft's text goes through the moderation gate; a rejection changes no
     * state and yields the alert text; an acceptance prepends the new story,
     * writes the collection through, clears the draft and the preview, closes
     * the modal and shows the wall.
     */
    method ConfirmSubmit(freshId: string, now: int, classify: string -> ClassifierReply)
      returns (alert: Option<string>)
      requires Valid()
      modifies this`stories, this`storedStories, this`pending, this`imagePreview, this`showConfirm, this`currentView
      ensures Valid()
      ensures old(pending).None? ==>
                alert == None && stories == old(stories) && storedStories == old(storedStories)
                && pending == old(pending) && imagePreview == old(imagePreview)
                && showConfirm == old(showConfirm) && currentView == old(currentView)
      ensures old(pending).Some? && !Moderate(old(pending).value.text, classify).safe ==>
                alert == Some(AlertText(Moderate(old(pending).value.text, classify)))
                && stories == old(stories) && storedStories == old(storedStories)
                && pending == old(pending) && imagePreview == old(imagePreview)
                && showConfirm == old(showConfirm) && currentView == old(currentView)
      ensures old(pending).Some? && Moderate(old(pending).value.text, classify).safe ==>
                alert == None
                && stories == [NewStory(old(pending).value, freshId, now)] + old(stories)
                && storedStories == Saved(stories)
                && pending == None && imagePreview == None && !showConfirm && currentView == Wall
    {
      if pending.None? {
        return None;
      }
      var draft := pending.value;
      var verdict := Moderate(draft.text, classify);
      if !verdict.safe {
        return Some(AlertText(verdict));
      }
      stories := [NewStory(draft, freshId, now)] + stories;
      storedStories := Saved(stories);
      pending := None;
      imagePreview := None;
      showConfirm := false;
      currentView := Wall;
      alert := None;
    }

    /** Header links and the home buttons: show another screen. */
    method Navigate(v: View)
      requires Valid()
      modifies this`currentView
      ensures Valid()
      ensures currentView == v
    {
      currentView := v;
    }

    /** The wall's Latest / Trending buttons. */
    method SetFilter(f: FilterType)
      requires Valid()
      modifies this`filter
      ensures Valid()
      ensures filter == f
    {
      filter := f;
    }

    /** The stories on the wall under the current filter. */
    function WallStories(): (r: seq<Story>)
      reads this
      ensures SortedBy(filter, r)
      ensures multiset(r) == multiset(Visible(stories))
    {
      SortedView(stories, filter)
    }
  }
}
