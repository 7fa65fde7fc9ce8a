/**
 The add-feed dialog (AddFeedFragment.java). Each edit of the link field is
 normalised (an "http://" prefix unless the text starts with "http", then a
 trailing "/" unless it ends with one) and checked against the platform's
 web-URL pattern, which the model takes as an arbitrary predicate `webUrl`.
 A valid link is remembered and enables the OK button; OK hands the
 remembered link to the fragment that opened the dialog.
 */
module AddFeed {
  import opened Wrappers

  /** Key under which the link travels in the result intent. */
  const AddFeedLinkKey: string := "add_feed_link_key"

  /** The platform's Activity.RESULT_OK. */
  const ResultOk: int := -1

  predicate StartsWith(s: string, prefix: string)
  {
    |prefix| <= |s| && s[..|prefix|] == prefix
  }

  predicate EndsWith(s: string, suffix: string)
  {
    |suffix| <= |s| && s[|s| - |suffix|..] == suffix
  }

  /** The entered text turned into a candidate feed link. */
  function Normalize(text: string): (link: string)
    ensures StartsWith(link, "http")
    ensures EndsWith(link, "/")
  {
    var prefixed := if StartsWith(text, "http") then text else "http://" + text;
    if EndsWith(prefixed, "/") then prefixed else prefixed + "/"
  }

  /** Text that already starts with "http" and ends with "/" is left alone, and only such text is. */
  lemma NormalizeFixedPoint(text: string)
    ensures Normalize(text) == text <==> StartsWith(text, "http") && EndsWith(text, "/")
  {
  }

  /** Normalising a normalised link changes nothing. */
  lemma NormalizeIdempotent(text: string)
    ensures Normalize(Normalize(text)) == Normalize(text)
  {
    NormalizeFixedPoint(Normalize(text));
  }

  /** The prefix check runs first, so empty text becomes exactly "http://" with no second slash. */
  lemma NormalizeEmpty()
    ensures Normalize("") == "http://"
  {
    assert EndsWith("http://", "/");
  }

  /**
   The output is the text itself, after "http://" when the text does not start
   with "http", followed by "/" when the text is non-empty and does not end
   with "/". Its length follows.
   */
  lemma NormalizeShape(text: string)
    ensures var offset := if StartsWith(text, "http") then 0 else 7;
      && |Normalize(text)| == |text| + offset + (if text == "" || EndsWith(text, "/") then 0 else 1)
      && Normalize(text)[offset..offset + |text|] == text
      && (!StartsWith(text, "http") ==> Normalize(text)[..7] == "http://")
  {
    var offset := if StartsWith(text, "http") then 0 else 7;
    var prefixed := if StartsWith(text, "http") then text else "http://" + text;
    assert prefixed[offset..] == text;
    if text == "" {
      assert EndsWith(prefixed, "/");
    } else {
      assert prefixed[|prefixed| - 1] == text[|text| - 1];
      assert EndsWith(prefixed, "/") <==> EndsWith(text, "/");
    }
    var link := Normalize(text);
    assert link[..|prefixed|] == prefixed;
    assert link[offset..offset + |text|] == prefixed[offset..];
  }

  /** When the last entry is not valid, no entry is valid exactly when no earlier entry is. */
  lemma {:induction false} NoValidEntryStep(typed: seq<string>, earlier: seq<string>, webUrl: string -> bool)
    requires typed != [] && earlier == typed[..|typed| - 1]
    requires !webUrl(Normalize(typed[|typed| - 1]))
    ensures (forall i | 0 <= i < |typed| :: !webUrl(Normalize(typed[i])))
        <==> (forall i | 0 <= i < |earlier| :: !webUrl(Normalize(earlier[i])))
  {
    assert forall i | 0 <= i < |earlier| :: earlier[i] == typed[i];
  }

  /** The link the dialog holds after the edits `typed`: the last one that normalised to a valid URL, or "". */
  function LatestValidLink(typed: seq<string>, webUrl: string -> bool): (link: string)
    ensures link == "" <==> forall i | 0 <= i < |typed| :: !webUrl(Normalize(typed[i]))
    ensures link != "" ==> webUrl(link) && StartsWith(link, "http") && EndsWith(link, "/")
    decreases |typed|
  {
    if typed == [] then ""
    else
      var candidate := Normalize(typed[|typed| - 1]);
      assert candidate != "" by { assert |candidate| >= 4; }
      if webUrl(candidate) then candidate
      else
        var earlier := typed[..|typed| - 1];
        NoValidEntryStep(typed, earlier, webUrl);
        LatestValidLink(earlier, webUrl)
  }

  /** Entry i of `typed` normalised to a valid URL, and no later entry did. */
  predicate LastValidAt(typed: seq<string>, webUrl: string -> bool, i: nat)
  {
    && i < |typed|
    && webUrl(Normalize(typed[i]))
    && forall j | i < j < |typed| :: !webUrl(Normalize(typed[j]))
  }

  /**
   A non-empty kept link is the normalisation of an entered text that passed
   the check, and no text entered after that one passed it.
   */
  lemma {:induction false} LatestValidLinkIsLastValid(typed: seq<string>, webUrl: string -> bool)
    ensures LatestValidLink(typed, webUrl) != "" ==>
      exists i: nat | LastValidAt(typed, webUrl, i) :: LatestValidLink(typed, webUrl) == Normalize(typed[i])
    decreases |typed|
  {
    if typed != [] {
      var n := |typed| - 1;
      var earlier := typed[..n];
      if webUrl(Normalize(typed[n])) {
        assert LastValidAt(typed, webUrl, n);
      } else {
        assert LatestValidLink(typed, webUrl) == LatestValidLink(earlier, webUrl);
        LatestValidLinkIsLastValid(earlier, webUrl);
        if LatestValidLink(earlier, webUrl) != "" {
          var i: nat :| LastValidAt(earlier, webUrl, i) && LatestValidLink(earlier, webUrl) == Normalize(earlier[i]);
          assert earlier[i] == typed[i];
          forall j | i < j < |typed|
            ensures !webUrl(Normalize(typed[j]))
          {
            if j < n {
              assert earlier[j] == typed[j];
              assert !webUrl(Normalize(earlier[j]));
            } else {
              assert j == n;
            }
          }
          assert LastValidAt(typed, webUrl, i);
        }
      }
    }
  }

  /** A call the dialog makes on its target fragment: request code, result code and the intent's extras. */
  datatype ActivityResult = ActivityResult(requestCode: int, resultCode: int, extras: map<string, string>)

  class AddFeedFragment {
    /** The platform's web-URL pattern, as a predicate. */
    const webUrl: string -> bool
    /** The request code of the target fragment, or None when there is no target. */
    const target: Option<int>
    /** Every text the field has held, in order. */
    ghost var typed: seq<string>
    var feedLink: string
    var okButtonEnabled: bool

    ghost predicate Valid()
      reads this
    {
      feedLink == LatestValidLink(typed, webUrl)
    }

    /** A new dialog: no link yet, and the OK button enabled as a freshly built dialog's buttons are. */
    constructor (webUrl: string -> bool, target: Option<int>)
      ensures Valid()
      ensures this.webUrl == webUrl && this.target == target
      ensures typed == [] && feedLink == "" && okButtonEnabled
    {
      this.webUrl := webUrl;
      this.target := target;
      typed := [];
      feedLink := "";
      okButtonEnabled := true;
    }

    /** When the dialog appears, the OK button is disabled. */
    method OnShow()
      requires Valid()
      modifies this`okButtonEnabled
      ensures Valid()
      ensures !okButtonEnabled
    {
      okButtonEnabled := false;
    }

    /**
     The field now holds `s`: the link is remembered only when its normalised
     form is a valid URL, and the OK button is enabled exactly then.
     */
    method OnTextChanged(s: string)
      requires Valid()
      modifies this`typed, this`feedLink, this`okButtonEnabled
      ensures Valid()
      ensures typed == old(typed) + [s]
      ensures okButtonEnabled == webUrl(Normalize(s))
      ensures okButtonEnabled ==> feedLink == Normalize(s)
      ensures !okButtonEnabled ==> feedLink == old(feedLink)
    {
      var enteredText := s;
      if !StartsWith(enteredText, "http") {
        enteredText := "http://" + enteredText;
      }
      if !EndsWith(enteredText, "/") {
        enteredText := enteredText + "/";
      }
      var isUrl := webUrl(enteredText);
      typed := typed + [s];
      assert typed[..|typed| - 1] == old(typed);
      if isUrl {
        feedLink := enteredText;
        okButtonEnabled := true;
      } else {
        okButtonEnabled := false;
      }
    }

    /**
     Delivers the remembered link to the target with `resultCode`; with no
     target nothing is delivered.
     */
    method SendResult(resultCode: int) returns (delivered: Option<ActivityResult>)
      ensures delivered.None? <==> target.None?
      ensures delivered.Some? ==>
        && delivered.value.requestCode == target.value
        && delivered.value.resultCode == resultCode
        && delivered.value.extras == map[AddFeedLinkKey := feedLink]
    {
      if target.None? {
        return None;
      }
      var intent := map[AddFeedLinkKey := feedLink];
      delivered := Some(ActivityResult(target.value, resultCode, intent));
    }

    /**
     Pressing OK sends the remembered link with RESULT_OK to the target's
     request code. A non-empty remembered link is the normalisation of the
     latest entered text that passed the check.
     */
    method OnPositiveClick() returns (delivered: Option<ActivityResult>)
      requires Valid()
      ensures delivered == if target.None? then None
                           else Some(ActivityResult(target.value, ResultOk, map[AddFeedLinkKey := feedLink]))
      ensures feedLink != "" ==> webUrl(feedLink) && StartsWith(feedLink, "http") && EndsWith(feedLink, "/")
      ensures feedLink != "" ==> exists i: nat | LastValidAt(typed, webUrl, i) :: feedLink == Normalize(typed[i])
    {
      LatestValidLinkIsLastValid(typed, webUrl);
      delivered := SendResult(ResultOk);
    }
  }

}
