# RSS reader: first-run seeding, preferences and the add-feed dialog

A model in Dafny of three pieces of an Android RSS reader:

- **Preferences** (`Prefs`): the persisted first-run flag under the key
  `"first_run_flag"`. It reads true until it is written. The shared
  preference file is a class holding a `map<string, bool>`, and
  `UtilsPrefs` reads and writes it.
- **Local feed store** (`Storage`): `DataStorage` over an embedded
  database (`Realm`, a class holding the feeds in insertion order). When
  the first-run flag is set, building the store appends one feed per
  default (title, link) pair, in array order and with no posts, and then
  clears the flag. The queries return every feed, or the posts of the
  first feed with a given link (empty when there is none). The value-level
  functions `InitFeeds` and `InitEntries` give the feeds and preferences
  after initialisation, and the lemmas state the seeding properties.
- **Add-feed dialog** (`AddFeed`): `Normalize` adds `"http://"` unless
  the text starts with `"http"`, and then adds `"/"` unless the result
  ends with `"/"`. `AddFeedFragment` keeps the last link that passed the
  web-URL check and enables OK exactly when the latest text passed. OK
  delivers the kept link to the target fragment. A ghost history of the
  entered texts ties the kept link to `LatestValidLink`.

Records (`RssData.RssFeed`, `RssData.RssPost`) are values. `Wrappers.Option`
stands for a null target and for a missing feed.

## Model

| member | source | states |
|---|---|---|
| Prefs.Put | app/src/main/java/com/gpetuhov/android/rssreader/utils/UtilsPrefs.java:37-42 | a write stores the value under its key; every other key keeps its presence and value |
| Prefs.UnsetFlagReadsFirstRun | app/src/main/java/com/gpetuhov/android/rssreader/utils/UtilsPrefs.java:18-22 | a flag key that was never written reads as first run |
| Prefs.FlagReadsLastWrite | app/src/main/java/com/gpetuhov/android/rssreader/utils/UtilsPrefs.java:29-31 | writing v under the flag key and then reading the flag gives v |
| Prefs.ClearFlagIdempotent | app/src/main/java/com/gpetuhov/android/rssreader/utils/UtilsPrefs.java:25-27 | clearing the flag twice leaves the same entries as clearing it once |
| Prefs.UtilsPrefs.constructor | app/src/main/java/com/gpetuhov/android/rssreader/utils/UtilsPrefs.java:13-15 | the helper keeps a reference to the shared preference file it is given |
| Prefs.UtilsPrefs.IsFirstRun | app/src/main/java/com/gpetuhov/android/rssreader/utils/UtilsPrefs.java:18-22 | returns true when the key is absent, otherwise the stored value; changes nothing |
| Prefs.UtilsPrefs.SetNotFirstRun | app/src/main/java/com/gpetuhov/android/rssreader/utils/UtilsPrefs.java:25-27 | writes false under the flag key only; afterwards the flag reads false |
| Prefs.UtilsPrefs.SetFirstRunFlagValue | app/src/main/java/com/gpetuhov/android/rssreader/utils/UtilsPrefs.java:29-31 | writes v under the flag key only; afterwards the flag reads v |
| Prefs.UtilsPrefs.GetBooleanFromSharedPreferences | app/src/main/java/com/gpetuhov/android/rssreader/utils/UtilsPrefs.java:33-35 | the stored value when the key is present, the default otherwise |
| Prefs.UtilsPrefs.PutBooleanToSharedPreferences | app/src/main/java/com/gpetuhov/android/rssreader/utils/UtilsPrefs.java:37-42 | the new entries are the old ones with one key written |
| Storage.DefaultFeeds | app/src/main/java/com/gpetuhov/android/rssreader/data/DataStorage.java:65-69 | one feed per title; the i-th has titles[i], links[i] and no posts; extra links are unused |
| Storage.FindFirst | app/src/main/java/com/gpetuhov/android/rssreader/data/DataStorage.java:86-87 | the index of the first feed with the link, with no earlier feed having it; None only when no feed has it |
| Storage.FeedsTitled | app/src/androidTest/java/com/gpetuhov/android/rssreader/RSSReaderInstrumentedTest.java:173-174 | the query by title returns only stored feeds with that title, and every stored feed with that title |
| Storage.FeedsTitledMultiset | app/src/androidTest/java/com/gpetuhov/android/rssreader/RSSReaderInstrumentedTest.java:173-178 | the query by title holds each stored feed with that title exactly as often as the store does, and nothing else; its size is the number of such feeds |
| Storage.InitSeedsDefaults | app/src/main/java/com/gpetuhov/android/rssreader/data/DataStorage.java:47-71 | with the flag set, the store gains exactly one feed per default title in array order; feeds already present are untouched |
| Storage.InitClearsFlag | app/src/main/java/com/gpetuhov/android/rssreader/data/DataStorage.java:45-53 | after initialisation the flag reads false whatever it was; no other key changes |
| Storage.InitAfterFirstRunIsNoOp | app/src/main/java/com/gpetuhov/android/rssreader/data/DataStorage.java:45-53 | with the flag clear, neither the feeds nor the preferences change |
| Storage.InitSeedsAtMostOnce | app/src/main/java/com/gpetuhov/android/rssreader/data/DataStorage.java:45-53 | initialising twice in a row gives the same store and flag as once; at most one batch of defaults is added |
| Storage.DefaultTitlesFoundOnce | app/src/androidTest/java/com/gpetuhov/android/rssreader/RSSReaderInstrumentedTest.java:154-182 | from a store holding none of the default titles and with distinct titles, each default title matches exactly one feed, with the corresponding link |
| Storage.SeededLinkFound | app/src/main/java/com/gpetuhov/android/rssreader/data/DataStorage.java:83-97 | after seeding every default link is found by the link query; if no earlier feed had it, the found feed has no posts |
| Storage.DataStorage.constructor | app/src/main/java/com/gpetuhov/android/rssreader/data/DataStorage.java:21-43 | builds the store over the given database and initialises it; afterwards the flag reads false |
| Storage.DataStorage.InitStorage | app/src/main/java/com/gpetuhov/android/rssreader/data/DataStorage.java:45-53 | seeds and clears the flag on a first run, otherwise changes nothing |
| Storage.DataStorage.CreateDefaultFeeds | app/src/main/java/com/gpetuhov/android/rssreader/data/DataStorage.java:56-71 | appends the default feeds, in array order, after the feeds already stored |
| Storage.DataStorage.GetFeedList | app/src/main/java/com/gpetuhov/android/rssreader/data/DataStorage.java:78-80 | returns every stored feed in store order and changes nothing |
| Storage.DataStorage.GetPostList | app/src/main/java/com/gpetuhov/android/rssreader/data/DataStorage.java:83-97 | the posts of the first feed with the link, or no posts when no feed has it; changes nothing |
| AddFeed.Normalize | app/src/main/java/com/gpetuhov/android/rssreader/AddFeedFragment.java:60-66 | the normalised text always starts with "http" and ends with "/" |
| AddFeed.NormalizeFixedPoint | app/src/main/java/com/gpetuhov/android/rssreader/AddFeedFragment.java:60-66 | text is returned unchanged if and only if it starts with "http" and ends with "/" |
| AddFeed.NormalizeIdempotent | app/src/main/java/com/gpetuhov/android/rssreader/AddFeedFragment.java:60-66 | normalising twice is the same as normalising once |
| AddFeed.NormalizeEmpty | app/src/main/java/com/gpetuhov/android/rssreader/AddFeedFragment.java:60-66 | the prefix check runs first, so empty text becomes exactly "http://" |
| AddFeed.NormalizeShape | app/src/main/java/com/gpetuhov/android/rssreader/AddFeedFragment.java:60-66 | the output is the text, after "http://" when unprefixed, plus "/" when the text is non-empty without a trailing "/"; length \|s\| + 7 + 1 accordingly |
| AddFeed.LatestValidLink | app/src/main/java/com/gpetuhov/android/rssreader/AddFeedFragment.java:55-83 | the kept link is "" exactly when no entered text normalised to a valid URL; otherwise it is a valid, normalised link |
| AddFeed.LatestValidLinkIsLastValid | app/src/main/java/com/gpetuhov/android/rssreader/AddFeedFragment.java:71-83 | a non-empty kept link is the normalisation of the last entered text that passed the URL check; no later text passed it |
| AddFeed.AddFeedFragment.constructor | app/src/main/java/com/gpetuhov/android/rssreader/AddFeedFragment.java:32 | a new dialog keeps no link ("") |
| AddFeed.AddFeedFragment.OnShow | app/src/main/java/com/gpetuhov/android/rssreader/AddFeedFragment.java:107-112 | showing the dialog disables the OK button |
| AddFeed.AddFeedFragment.OnTextChanged | app/src/main/java/com/gpetuhov/android/rssreader/AddFeedFragment.java:55-84 | OK is enabled exactly when the normalised text is valid; only then the kept link becomes that text, otherwise it stays as it was |
| AddFeed.AddFeedFragment.SendResult | app/src/main/java/com/gpetuhov/android/rssreader/AddFeedFragment.java:125-137 | nothing is delivered without a target; otherwise the target's request code, the result code and the kept link under "add_feed_link_key" |
| AddFeed.AddFeedFragment.OnPositiveClick | app/src/main/java/com/gpetuhov/android/rssreader/AddFeedFragment.java:96-102 | OK delivers to the target's request code, with RESULT_OK (-1), an intent holding only the kept link; nothing without a target; a non-empty kept link is the normalisation of the latest entered text that passed the check |

## Left out

- Fetching feeds over HTTP (FeedFetcher.java). It only stores and logs the response, so there is no parsing and no create-or-update step to model.
- The feed list, post list and post screens, the dependency-injection wiring and the event payloads. They are UI and library plumbing.
- Database lifecycle: `Realm.init`, `getDefaultInstance`, `beginTransaction`/`commitTransaction`, the `getRealm` accessor and the finalizer that closes the instance. The two constructors differ only in where the database instance comes from, so one constructor that takes the instance models both. Each transaction is one method call; callers see only its final state.
- The order of an unsorted database query is taken to be insertion order, both for the feed list and for "first feed with this link". Query results are snapshots here, not live views.
- The default title and link arrays are resources whose contents are not visible. They are the `Resources` parameter.
- Storage.DataStorage.constructor, Storage.DataStorage.InitStorage, Storage.DataStorage.CreateDefaultFeeds: require at least as many default links as titles when the flag is set. With fewer links the app throws an index-out-of-bounds error inside the open transaction; that failure path is not modelled.
- The web-URL regular expression is an arbitrary predicate `webUrl`. URL syntax is not modelled.
- Preferences hold only booleans here. Other value types and the asynchronous write to disk after `apply` are not modelled; the in-memory update is immediate.
- The dialog's view binding, its Cancel button and `onDestroyView` are not modelled. The target fragment is its request code (`Option<int>`), and the call on it is returned as an `ActivityResult` value.
- Strings are sequences of characters. Java's UTF-16 code units are not distinguished from characters.
