/** The account menu in the navigation bar: the avatar fallback initials and
    the menu entries, which depend on whether the signed-in user owns a salon. */
module UserMenu {
  import opened JsValues
  import opened JsStrings
  import AuthContext

  /** `.map((n) => n[0]).join("")`: the first character of every word. An empty
      word gives `undefined`, which `join` writes as nothing. */
  function FirstLetters(words: seq<string>): (r: string)
    ensures |r| <= |words|
  {
    if words == [] then ""
    else (if words[0] == "" then "" else [words[0][0]]) + FirstLetters(words[1..])
  }

  /** `name.split(" ").map((n) => n[0]).join("").toUpperCase()` */
  function Initials(name: string): (r: string)
    ensures |r| <= |Split(name, ' ')|
    ensures forall k :: 0 <= k < |r| ==> !('a' <= r[k] <= 'z')
  {
    Upper(FirstLetters(Split(name, ' ')))
  }

  lemma {:induction false} FirstLettersAppend(a: seq<string>, b: seq<string>)
    ensures FirstLetters(a + b) == FirstLetters(a) + FirstLetters(b)
  {
    if a != [] {
      assert (a + b)[1..] == a[1..] + b;
      FirstLettersAppend(a[1..], b);
    } else {
      assert a + b == b;
    }
  }

  /** For words that are all non-empty, one letter per word, in order. */
  lemma {:induction false} FirstLettersOfWords(words: seq<string>)
    requires forall k :: 0 <= k < |words| ==> words[k] != ""
    ensures |FirstLetters(words)| == |words|
    ensures forall k :: 0 <= k < |words| ==> FirstLetters(words)[k] == words[k][0]
  {
    if words != [] {
      FirstLettersOfWords(words[1..]);
    }
  }

  /** A name made of non-empty words separated by single spaces has one initial
      per word: the upper-cased first character of that word, in order. */
  lemma InitialsOfWords(words: seq<string>)
    requires |words| >= 1
    requires forall k :: 0 <= k < |words| ==> words[k] != "" && ' ' !in words[k]
    ensures |Initials(Join(words, " "))| == |words|
    ensures forall k :: 0 <= k < |words| ==> Initials(Join(words, " "))[k] == UpperChar(words[k][0])
  {
    SplitJoin(words, ' ');
    FirstLettersOfWords(words);
  }

  /** A doubled space adds an empty word, which contributes no initial. */
  lemma DoubleSpaceSameInitials(first: string, rest: string)
    requires ' ' !in first
    ensures Initials(first + " " + " " + rest) == Initials(first + " " + rest)
  {
    var words := Split(rest, ' ');
    assert first + " " + " " + rest == first + [' '] + ([] + [' '] + rest);
    SplitAtSeparator([], rest, ' ');
    SplitAtSeparator(first, [] + [' '] + rest, ' ');
    assert Split(first + " " + " " + rest, ' ') == [first] + ([""] + words);
    assert first + " " + rest == first + [' '] + rest;
    SplitAtSeparator(first, rest, ' ');
    FirstLettersAppend([first], [""] + words);
    FirstLettersAppend([""], words);
    FirstLettersAppend([first], words);
  }

  /** The entries of the account menu. */
  datatype MenuItem = Dashboard | ManageBookings | SalonSettings | Profile | MyBookings | Favorites | Logout

  function Label(item: MenuItem): string
  {
    match item
    case Dashboard => "Dashboard"
    case ManageBookings => "Manage Bookings"
    case SalonSettings => "Salon Settings"
    case Profile => "Profile"
    case MyBookings => "My Bookings"
    case Favorites => "Favorites"
    case Logout => "Logout"
  }

  /** Where an entry navigates; Logout signs out instead of navigating. */
  function Route(item: MenuItem): (r: Option<string>)
    ensures r.None? <==> item == Logout
  {
    match item
    case Dashboard => Some("/salon-dashboard")
    case ManageBookings => Some("/manage-bookings")
    case SalonSettings => Some("/salon-settings")
    case Profile => Some("/profile")
    case MyBookings => Some("/bookings")
    case Favorites => Some("/favorites")
    case Logout => None
  }

  predicate OwnerItem(item: MenuItem)
  {
    item == Dashboard || item == ManageBookings || item == SalonSettings
  }

  predicate CustomerItem(item: MenuItem)
  {
    item == Profile || item == MyBookings || item == Favorites
  }

  /** The menu: nothing without a user; salon owners get the salon pages, every
      other user the customer pages; Logout is always the last entry. */
  function Menu(user: Option<AuthContext.User>): (r: Option<seq<MenuItem>>)
    ensures r.None? <==> user.None?
    ensures r.Some? ==> |r.value| == 4 && r.value[3] == Logout
    ensures r.Some? ==> forall k :: 0 <= k < 3 ==> r.value[k] != Logout
    ensures r.Some? ==> forall k :: 0 <= k < 3 ==>
      (OwnerItem(r.value[k]) <==> user.value.role == AuthContext.SalonOwner)
    ensures r.Some? ==> forall k :: 0 <= k < 3 ==>
      (CustomerItem(r.value[k]) <==> user.value.role != AuthContext.SalonOwner)
  {
    match user
    case None => None
    case Some(u) =>
      if u.role == AuthContext.SalonOwner then Some([Dashboard, ManageBookings, SalonSettings, Logout])
      else Some([Profile, MyBookings, Favorites, Logout])
  }

  /** Every entry has its own label, and the three role-specific entries of a
      menu are distinct. */
  lemma MenuEntriesDistinct(user: Option<AuthContext.User>)
    requires user.Some?
    ensures forall i, j :: 0 <= i < j < 4 ==> Menu(user).value[i] != Menu(user).value[j]
    ensures forall i, j :: 0 <= i < j < 4 ==> Label(Menu(user).value[i]) != Label(Menu(user).value[j])
  {
  }

  /** The menu follows the session: after signing in as a salon owner the salon
      pages are offered, and after logging out there is no menu at all. */
  lemma MenuAfterActions(u: Option<AuthContext.User>, a: AuthContext.Action)
    ensures a.Logout? ==> Menu(AuthContext.Apply(u, a)).None?
    ensures !a.Logout? ==> (Menu(AuthContext.Apply(u, a)).Some? &&
      (Menu(AuthContext.Apply(u, a)).value[0] == Dashboard <==> a.role == AuthContext.SalonOwner))
  {
  }
}
