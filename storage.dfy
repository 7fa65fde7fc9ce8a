/**
 The local feed store (data/DataStorage.java). The embedded database is a
 `Realm` object holding the feeds in insertion order; on construction the
 store seeds one feed per default (title, link) pair when the first-run
 flag is set, then clears the flag. Queries read the feeds and change nothing.
 */
module Storage {
  import opened Wrappers
  import opened RssData
  import opened Prefs

  /** The two string-array resources the seeding reads. */
  datatype Resources = Resources(defaultRssFeedTitles: seq<string>, defaultRssFeedLinks: seq<string>)

  /** Feeds created by seeding: the i-th has the i-th title, the i-th link and no posts. */
  function DefaultFeeds(titles: seq<string>, links: seq<string>): (feeds: seq<RssFeed>)
    requires |links| >= |titles|
    ensures |feeds| == |titles|
    ensures forall i | 0 <= i < |titles| :: feeds[i] == RssFeed(titles[i], links[i], [])
    decreases |titles|
  {
    if titles == [] then []
    else [RssFeed(titles[0], links[0], [])] + DefaultFeeds(titles[1..], links[1..])
  }

  /** The feeds after store initialisation, given the feeds and preference entries before it. */
  function InitFeeds(feeds: seq<RssFeed>, entries: map<string, bool>, titles: seq<string>, links: seq<string>): seq<RssFeed>
    requires FirstRunFlag(entries) ==> |links| >= |titles|
  {
    if FirstRunFlag(entries) then feeds + DefaultFeeds(titles, links) else feeds
  }

  /** The preference entries after store initialisation. */
  function InitEntries(entries: map<string, bool>): map<string, bool>
  {
    if FirstRunFlag(entries) then Put(entries, FirstRunKey, false) else entries
  }

  /** Index of the first feed with the given link, or None when no feed has it. */
  function FindFirst(feeds: seq<RssFeed>, link: string): (r: Option<nat>)
    ensures r.Some? ==> r.value < |feeds| && feeds[r.value].link == link
    ensures r.Some? ==> forall j | 0 <= j < r.value :: feeds[j].link != link
    ensures r.None? ==> forall j | 0 <= j < |feeds| :: feeds[j].link != link
  {
    if feeds == [] then None
    else if feeds[0].link == link then Some(0)
    else match FindFirst(feeds[1..], link)
      case None => None
      case Some(k) => Some(k + 1)
  }

  /**
   The feeds whose title equals `title`, in store order: the query by title
   that the instrumented test runs for each default title
   (RSSReaderInstrumentedTest.java:173-174).
   */
  function FeedsTitled(feeds: seq<RssFeed>, title: string): (r: seq<RssFeed>)
    ensures forall f | f in r :: f in feeds && f.title == title
    ensures forall f | f in feeds && f.title == title :: f in r
  {
    if feeds == [] then []
    else (if feeds[0].title == title then [feeds[0]] else []) + FeedsTitled(feeds[1..], title)
  }

  /**
   With the flag set, initialisation appends exactly one feed per default
   title, in array order, and leaves the feeds already present as they were.
   Links beyond the number of titles are ignored.
   */
  lemma InitSeedsDefaults(feeds: seq<RssFeed>, entries: map<string, bool>, titles: seq<string>, links: seq<string>)
    requires FirstRunFlag(entries) && |links| >= |titles|
    ensures |InitFeeds(feeds, entries, titles, links)| == |feeds| + |titles|
    ensures InitFeeds(feeds, entries, titles, links)[..|feeds|] == feeds
    ensures forall i | 0 <= i < |titles| ::
      InitFeeds(feeds, entries, titles, links)[|feeds| + i] == RssFeed(titles[i], links[i], [])
  {
    var r := InitFeeds(feeds, entries, titles, links);
    assert r == feeds + DefaultFeeds(titles, links);
    forall i | 0 <= i < |titles|
      ensures r[|feeds| + i] == RssFeed(titles[i], links[i], [])
    {
      assert r[|feeds| + i] == DefaultFeeds(titles, links)[i];
    }
  }

  /** Whatever the flag was, it reads false after initialisation; no other key changes. */
  lemma InitClearsFlag(entries: map<string, bool>)
    ensures !FirstRunFlag(InitEntries(entries))
    ensures forall k | k != FirstRunKey ::
      (k in InitEntries(entries) <==> k in entries) && (k in entries ==> InitEntries(entries)[k] == entries[k])
  {
  }

  /** With the flag already cleared, initialisation changes neither the feeds nor the preferences. */
  lemma InitAfterFirstRunIsNoOp(feeds: seq<RssFeed>, entries: map<string, bool>, titles: seq<string>, links: seq<string>)
    requires !FirstRunFlag(entries)
    ensures InitFeeds(feeds, entries, titles, links) == feeds
    ensures InitEntries(entries) == entries
  {
  }

  /** Initialising twice in a row seeds the defaults at most once. */
  lemma InitSeedsAtMostOnce(feeds: seq<RssFeed>, entries: map<string, bool>, titles: seq<string>, links: seq<string>)
    requires FirstRunFlag(entries) ==> |links| >= |titles|
    ensures InitFeeds(InitFeeds(feeds, entries, titles, links), InitEntries(entries), titles, links)
         == InitFeeds(feeds, entries, titles, links)
    ensures InitEntries(InitEntries(entries)) == InitEntries(entries)
    ensures |InitFeeds(InitFeeds(feeds, entries, titles, links), InitEntries(entries), titles, links)| <= |feeds| + |titles|
  {
    InitClearsFlag(entries);
    if FirstRunFlag(entries) {
      InitSeedsDefaults(feeds, entries, titles, links);
    }
  }

  /** A query by title distributes over concatenation of feed sequences. */
  lemma {:induction false} FeedsTitledAppend(a: seq<RssFeed>, b: seq<RssFeed>, title: string)
    ensures FeedsTitled(a + b, title) == FeedsTitled(a, title) + FeedsTitled(b, title)
  {
    if a == [] {
      assert a + b == b;
    } else {
      var head := if a[0].title == title then [a[0]] else [];
      calc {
        FeedsTitled(a + b, title);
        { assert (a + b)[0] == a[0]; assert (a + b)[1..] == a[1..] + b; }
        head + FeedsTitled(a[1..] + b, title);
        { FeedsTitledAppend(a[1..], b, title); }
        head + (FeedsTitled(a[1..], title) + FeedsTitled(b, title));
        (head + FeedsTitled(a[1..], title)) + FeedsTitled(b, title);
        FeedsTitled(a, title) + FeedsTitled(b, title);
      }
    }
  }

  /**
   The query by title keeps each feed with that title as many times as the
   store holds it and drops every other feed, so its size is the number of
   stored feeds with that title.
   */
  lemma {:induction false} FeedsTitledMultiset(feeds: seq<RssFeed>, title: string)
    ensures forall f :: multiset(FeedsTitled(feeds, title))[f] == if f.title == title then multiset(feeds)[f] else 0
  {
    if feeds != [] {
      assert feeds == [feeds[0]] + feeds[1..];
      FeedsTitledMultiset(feeds[1..], title);
    }
  }

  /** A query by a title no feed has finds nothing. */
  lemma {:induction false} FeedsTitledAbsent(feeds: seq<RssFeed>, title: string)
    requires forall j | 0 <= j < |feeds| :: feeds[j].title != title
    ensures FeedsTitled(feeds, title) == []
  {
    if feeds != [] {
      FeedsTitledAbsent(feeds[1..], title);
    }
  }

  /** Among the seeded feeds, a default title with no duplicate matches exactly its own feed. */
  lemma {:induction false} FeedsTitledDefault(titles: seq<string>, links: seq<string>, i: nat)
    requires |links| >= |titles| && i < |titles|
    requires forall j, k | 0 <= j < k < |titles| :: titles[j] != titles[k]
    ensures FeedsTitled(DefaultFeeds(titles, links), titles[i]) == [RssFeed(titles[i], links[i], [])]
  {
    var d := DefaultFeeds(titles, links);
    assert d[1..] == DefaultFeeds(titles[1..], links[1..]);
    if i == 0 {
      forall j | 0 <= j < |d[1..]|
        ensures d[1..][j].title != titles[0]
      {
        assert d[1..][j] == d[j + 1];
      }
      FeedsTitledAbsent(d[1..], titles[0]);
    } else {
      assert titles[0] != titles[i];
      FeedsTitledDefault(titles[1..], links[1..], i - 1);
    }
  }

  /**
   Starting from a store with none of the default titles (an empty store in
   particular) and distinct default titles, after a first-run initialisation
   each default title matches exactly one feed, whose link is the matching
   default link.
   */
  lemma DefaultTitlesFoundOnce(feeds: seq<RssFeed>, entries: map<string, bool>, titles: seq<string>, links: seq<string>)
    requires FirstRunFlag(entries) && |links| >= |titles|
    requires forall j, k | 0 <= j < k < |titles| :: titles[j] != titles[k]
    requires forall j, k | 0 <= j < |feeds| && 0 <= k < |titles| :: feeds[j].title != titles[k]
    ensures forall i | 0 <= i < |titles| ::
      |FeedsTitled(InitFeeds(feeds, entries, titles, links), titles[i])| == 1 &&
      FeedsTitled(InitFeeds(feeds, entries, titles, links), titles[i])[0].link == links[i]
  {
    forall i | 0 <= i < |titles|
      ensures FeedsTitled(InitFeeds(feeds, entries, titles, links), titles[i]) == [RssFeed(titles[i], links[i], [])]
    {
      FeedsTitledAppend(feeds, DefaultFeeds(titles, links), titles[i]);
      FeedsTitledAbsent(feeds, titles[i]);
      FeedsTitledDefault(titles, links, i);
    }
  }

  /**
   After a first-run initialisation every default link is found by the
   link query; when no feed present before had that link, the feed found
   is a seeded one and its post list is empty.
   */
  lemma SeededLinkFound(feeds: seq<RssFeed>, entries: map<string, bool>, titles: seq<string>, links: seq<string>, i: nat)
    requires FirstRunFlag(entries) && |links| >= |titles| && i < |titles|
    ensures FindFirst(InitFeeds(feeds, entries, titles, links), links[i]).Some?
    ensures (forall j | 0 <= j < |feeds| :: feeds[j].link != links[i]) ==>
      var r := InitFeeds(feeds, entries, titles, links);
      r[FindFirst(r, links[i]).value].posts == []
  {
    InitSeedsDefaults(feeds, entries, titles, links);
    var r := InitFeeds(feeds, entries, titles, links);
    assert r[|feeds| + i].link == links[i];
    if forall j | 0 <= j < |feeds| :: feeds[j].link != links[i] {
      var k := FindFirst(r, links[i]).value;
      assert k >= |feeds|;
      assert r[k] == RssFeed(titles[k - |feeds|], links[k - |feeds|], []);
    }
  }

  /** The embedded database: the feed records in insertion order. */
  class Realm {
    var feeds: seq<RssFeed>

    constructor (feeds: seq<RssFeed>)
      ensures this.feeds == feeds
    {
      this.feeds := feeds;
    }
  }

  class DataStorage {
    const context: Resources
    const utilsPrefs: UtilsPrefs
    const realm: Realm

    /**
     Builds the store over `realm` and initialises it. The app obtains the
     default database instance; tests pass their own; both then initialise.
     Seeding reads a link for every title, so it needs at least as many links
     as titles, but only when the flag is set.
     */
    constructor (context: Resources, utilsPrefs: UtilsPrefs, realm: Realm)
      requires FirstRunFlag(utilsPrefs.sharedPreferences.entries) ==>
        |context.defaultRssFeedLinks| >= |context.defaultRssFeedTitles|
      modifies utilsPrefs.sharedPreferences, realm
      ensures this.context == context && this.utilsPrefs == utilsPrefs && this.realm == realm
      ensures realm.feeds == InitFeeds(old(realm.feeds), old(utilsPrefs.sharedPreferences.entries),
                                       context.defaultRssFeedTitles, context.defaultRssFeedLinks)
      ensures utilsPrefs.sharedPreferences.entries == InitEntries(old(utilsPrefs.sharedPreferences.entries))
      ensures !FirstRunFlag(utilsPrefs.sharedPreferences.entries)
    {
      this.context := context;
      this.utilsPrefs := utilsPrefs;
      this.realm := realm;
      new;
      InitStorage();
      InitClearsFlag(old(utilsPrefs.sharedPreferences.entries));
    }

    /** Seeds the defaults and clears the flag when this is the first run; otherwise does nothing. */
    method InitStorage()
      requires FirstRunFlag(utilsPrefs.sharedPreferences.entries) ==>
        |context.defaultRssFeedLinks| >= |context.defaultRssFeedTitles|
      modifies utilsPrefs.sharedPreferences, realm
      ensures realm.feeds == InitFeeds(old(realm.feeds), old(utilsPrefs.sharedPreferences.entries),
                                       context.defaultRssFeedTitles, context.defaultRssFeedLinks)
      ensures utilsPrefs.sharedPreferences.entries == InitEntries(old(utilsPrefs.sharedPreferences.entries))
    {
      var firstRun := utilsPrefs.IsFirstRun();
      if firstRun {
        CreateDefaultFeeds();
        utilsPrefs.SetNotFirstRun();
      }
    }

    /** Appends one feed per default title, in array order, inside one transaction. */
    method CreateDefaultFeeds()
      requires |context.defaultRssFeedLinks| >= |context.defaultRssFeedTitles|
      modifies realm
      ensures realm.feeds == old(realm.feeds) + DefaultFeeds(context.defaultRssFeedTitles, context.defaultRssFeedLinks)
    {
      var titles := context.defaultRssFeedTitles;
      var links := context.defaultRssFeedLinks;
      var i := 0;
      while i < |titles|
        invariant 0 <= i <= |titles|
        invariant |realm.feeds| == |old(realm.feeds)| + i
        invariant realm.feeds[..|old(realm.feeds)|] == old(realm.feeds)
        invariant forall j | 0 <= j < i :: realm.feeds[|old(realm.feeds)| + j] == RssFeed(titles[j], links[j], [])
      {
        realm.feeds := realm.feeds + [RssFeed(titles[i], links[i], [])];
        i := i + 1;
      }
      var seeded := DefaultFeeds(titles, links);
      assert realm.feeds == old(realm.feeds) + seeded by {
        forall j | 0 <= j < |realm.feeds|
          ensures realm.feeds[j] == (old(realm.feeds) + seeded)[j]
        {
          if j >= |old(realm.feeds)| {
            assert seeded[j - |old(realm.feeds)|] == RssFeed(titles[j - |old(realm.feeds)|], links[j - |old(realm.feeds)|], []);
          } else {
            assert realm.feeds[j] == realm.feeds[..|old(realm.feeds)|][j];
          }
        }
      }
    }

    /** Every stored feed, in store order. */
    method GetFeedList() returns (feeds: seq<RssFeed>)
      ensures feeds == realm.feeds
    {
      feeds := realm.feeds;
    }

    /** The posts of the first feed whose link is `feedLink`, or no posts when there is none. */
    method GetPostList(feedLink: string) returns (posts: seq<RssPost>)
      ensures (forall j | 0 <= j < |realm.feeds| :: realm.feeds[j].link != feedLink) ==> posts == []
      ensures forall i | 0 <= i < |realm.feeds| && realm.feeds[i].link == feedLink &&
                         (forall j | 0 <= j < i :: realm.feeds[j].link != feedLink) ::
                posts == realm.feeds[i].posts
    {
      var found := FindFirst(realm.feeds, feedLink);
      match found
      case Some(k) =>
        posts := realm.feeds[k].posts;
      case None =>
        posts := [];
    }
  }

}
