// The hash routing of src/App.jsx: the effect that runs when the
// authentication state settles, the `hashchange` listener it installs, the
// sidebar's tab switch, and the initials shown for the signed-in user.
// `hash` is the address fragment without its '#', which is what
// `window.location.hash.replace('#', '')` reads back; each write to it is
// reported, and the `hashchange` event a write causes is a later, separate
// call of `OnHashChange`.

module Routing {
  import opened Common

  const SignIn := "signin"
  const Register := "register"
  const Home := "dashboard"

  /** The ids of the sidebar menu. */
  const MenuIds: seq<string> := ["dashboard", "todo", "habits", "expenses", "quadrants", "notes"]

  predicate IsMenuId(h: string)
  {
    h in MenuIds
  }

  predicate IsAuthPage(h: string)
  {
    h == SignIn || h == Register
  }

  /** The fragment names a page the effect and the listener accept. */
  predicate IsKnownPage(h: string)
  {
    h != "" && (IsMenuId(h) || IsAuthPage(h))
  }

  class Router {
    var activeTab: string
    var hash: string

    /** The first render: the dashboard tab, whatever the address says. */
    constructor(initialHash: string)
      ensures activeTab == Home && hash == initialHash
    {
      activeTab := Home;
      hash := initialHash;
    }

    /**
     * The routing effect. While the authentication check is running nothing
     * happens. Signed out, only the two auth pages are allowed: any other
     * fragment is rewritten to 'signin', and the tab is 'register' exactly
     * when the fragment was 'register'. Signed in, an auth page sends the
     * user to the dashboard, a menu id becomes the tab, and an empty or
     * unknown fragment is overwritten with the current tab. Afterwards the
     * fragment always names the tab.
     */
    method Effect(authLoading: bool, isAuthenticated: bool) returns (wrote: bool)
      modifies this
      ensures authLoading ==> activeTab == old(activeTab) && hash == old(hash) && !wrote
      ensures !authLoading ==> hash == activeTab
      ensures !authLoading && Route(old(hash), isAuthenticated).Some? ==>
        activeTab == Route(old(hash), isAuthenticated).value
      ensures !authLoading && !isAuthenticated ==>
        (activeTab == Register <==> old(hash) == Register)
        && IsAuthPage(activeTab)
        && wrote == !IsAuthPage(old(hash))
      ensures !authLoading && isAuthenticated && IsKnownPage(old(hash)) ==>
        activeTab == (if IsAuthPage(old(hash)) then Home else old(hash))
      ensures !authLoading && isAuthenticated && !IsKnownPage(old(hash)) ==>
        activeTab == old(activeTab) && wrote == (old(hash) != old(activeTab))
    {
      wrote := false;
      if authLoading {
        return;
      }
      var fromHash := hash;
      if !isAuthenticated {
        if fromHash != SignIn && fromHash != Register {
          hash, wrote := SignIn, true;
        }
        activeTab := if fromHash == Register then Register else SignIn;
        return;
      }
      if fromHash != "" && (IsMenuId(fromHash) || fromHash == SignIn || fromHash == Register) {
        if fromHash == SignIn || fromHash == Register {
          activeTab := Home;
          if fromHash != Home {
            hash, wrote := Home, true;
          }
        } else {
          activeTab := fromHash;
        }
      } else {
        if hash != activeTab {
          hash, wrote := activeTab, true;
        }
      }
    }

    /**
     * The `hashchange` listener. The effect installs it only once the user
     * is signed in (a signed-out run returns before line 70), so its
     * signed-out branch never runs: an auth page leads to the dashboard and
     * a menu id becomes the tab, but an empty or unknown fragment is left
     * alone, tab and all.
     */
    method OnHashChange() returns (wrote: bool)
      modifies this
      ensures IsKnownPage(old(hash)) ==>
        activeTab == (if IsAuthPage(old(hash)) then Home else old(hash)) && hash == activeTab
      ensures !IsKnownPage(old(hash)) ==> activeTab == old(activeTab) && hash == old(hash)
      ensures wrote <==> hash != old(hash)
      ensures wrote <==> IsAuthPage(old(hash))
      ensures Route(old(hash), true).Some? ==> activeTab == Route(old(hash), true).value
    {
      wrote := false;
      var h := hash;
      if h != "" && (IsMenuId(h) || h == SignIn || h == Register) {
        if h == SignIn || h == Register {
          activeTab := Home;
          if hash != Home {
            hash, wrote := Home, true;
          }
        } else {
          activeTab := h;
        }
      }
    }

    /** handleSetActiveTab: the tab becomes id, and the fragment is written only when it differs. */
    method SetActiveTab(id: string) returns (wrote: bool)
      modifies this
      ensures activeTab == id && hash == id
      ensures wrote <==> old(hash) != id
    {
      activeTab := id;
      wrote := false;
      if hash != id {
        hash, wrote := id, true;
      }
    }
  }

  /**
   * The page the routing settles on for a fragment and a signed-in state,
   * or None when the fragment leaves the tab as it was; the effect and
   * the listener both settle on it.
   */
  function Route(h: string, isAuthenticated: bool): (r: Option<string>)
    ensures !isAuthenticated ==> r.Some? && IsAuthPage(r.value)
    ensures isAuthenticated && r.Some? ==> IsMenuId(r.value)
    ensures isAuthenticated ==> (r.None? <==> !IsKnownPage(h))
  {
    if !isAuthenticated then Some(if h == Register then Register else SignIn)
    else if !IsKnownPage(h) then None
    else if IsAuthPage(h) then Some(Home)
    else Some(h)
  }

  /** Routing a fragment that has already been routed changes nothing. */
  lemma RouteIdempotent(h: string, isAuthenticated: bool)
    requires Route(h, isAuthenticated).Some?
    ensures Route(Route(h, isAuthenticated).value, isAuthenticated) == Route(h, isAuthenticated)
  {
  }

  // ---------------------------------------------------------------------
  // The initials (line 141).
  // ---------------------------------------------------------------------

  /** The non-empty words, in order. */
  function Words(parts: seq<string>): seq<string>
  {
    if parts == [] then [] else (if parts[0] == "" then [] else [parts[0]]) + Words(parts[1..])
  }

  /**
   * `parts.map(n => n[0]).join('')`: an empty part gives `undefined`, which
   * joins as nothing, so the result is the first letter of each non-empty
   * word, in order.
   */
  function FirstLetters(parts: seq<string>): (r: string)
    ensures |r| == |Words(parts)| <= |parts|
    ensures forall i :: 0 <= i < |r| ==> Words(parts)[i] != "" && r[i] == Words(parts)[i][0]
    ensures (r == "") <==> forall i :: 0 <= i < |parts| ==> parts[i] == ""
  {
    if parts == [] then ""
    else
      var rest := FirstLetters(parts[1..]);
      assert forall i :: 1 <= i < |parts| ==> parts[1..][i - 1] == parts[i];
      var head := if parts[0] == "" then "" else [parts[0][0]];
      LettersOfCons(parts, head, rest);
      head + rest
  }

  /** One more word puts its first letter, if any, in front of the others'. */
  lemma LettersOfCons(parts: seq<string>, head: string, rest: string)
    requires parts != [] && head == (if parts[0] == "" then "" else [parts[0][0]])
    requires |rest| == |Words(parts[1..])|
    requires forall i :: 0 <= i < |rest| ==> Words(parts[1..])[i] != "" && rest[i] == Words(parts[1..])[i][0]
    ensures |head + rest| == |Words(parts)|
    ensures forall i :: 0 <= i < |head + rest| ==> Words(parts)[i] != "" && (head + rest)[i] == Words(parts)[i][0]
  {
    var ws, tail := Words(parts), Words(parts[1..]);
    forall i | 0 <= i < |head + rest|
      ensures ws[i] != "" && (head + rest)[i] == ws[i][0]
    {
      if i >= |head| {
        assert (head + rest)[i] == rest[i - |head|] && ws[i] == tail[i - |head|];
      }
    }
  }

  /**
   * The avatar text: the first letters of the first two non-empty
   * space-separated words of the name ('G' for a missing name), upper-cased.
   */
  function Initials(name: string): (r: string)
    ensures var ws := Words(Split(if name == "" then "G" else name, ' '));
      |r| == (if |ws| < 2 then |ws| else 2)
      && forall i :: 0 <= i < |r| ==> ws[i] != "" && r[i] == UpperChar(ws[i][0])
    ensures name == "" ==> r == "G"
  {
    var letters := FirstLetters(Split(if name == "" then "G" else name, ' '));
    Upper(if |letters| <= 2 then letters else letters[..2])
  }

  /** A one-word name gives its own first letter, upper-cased. */
  lemma InitialsOfOneWord(name: string)
    requires name != "" && ' ' !in name
    ensures Initials(name) == [UpperChar(name[0])]
  {
    assert IndexOfFrom(name, ' ', 0).None?;
    assert Split(name, ' ') == [name];
    assert FirstLetters([name]) == [name[0]];
  }

  /** A name of only spaces has no initials at all. */
  lemma {:induction false} BlankNameHasNoInitials(name: string)
    requires name != "" && forall i :: 0 <= i < |name| ==> name[i] == ' '
    ensures Initials(name) == ""
  {
    SplitOfSpaces(name);
  }

  lemma {:induction false} SplitOfSpaces(s: string)
    requires forall i :: 0 <= i < |s| ==> s[i] == ' '
    ensures forall i :: 0 <= i < |Split(s, ' ')| ==> Split(s, ' ')[i] == ""
    decreases |s|
  {
    if s != [] {
      assert IndexOfFrom(s, ' ', 0) == Some(0);
      SplitOfSpaces(s[1..]);
      assert s[..0] == "";
    }
  }
}
