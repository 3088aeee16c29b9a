/** The services section of the salon form: adding a blank service, removing
    the service at a position, and the experts field, which shows the list
    joined with ", " and reads typed text back by splitting on commas. */
module ServicesSection {
  import opened JsValues
  import opened JsStrings
  import opened ListOps
  import opened SalonForm

  /** The entry `addService` appends. */
  const BlankService: Service := Service("", "", "", "", [])

  /** `addService`: the list (empty when unset) grows by the blank service. */
  method AddService(form: FormStore)
    modifies form
    ensures form.services.Some? && |form.services.value| == |old(form.ServicesOrEmpty())| + 1
    ensures form.services.value == old(form.ServicesOrEmpty()) + [BlankService]
    ensures form.staff == old(form.staff)
  {
    var current := form.ServicesOrEmpty();
    form.SetServices(current + [BlankService]);
  }

  /** `removeService(index)`: the list (empty when unset) without position `index`. */
  method RemoveService(form: FormStore, index: int)
    modifies form
    ensures form.services == Some(DropPosition(old(form.ServicesOrEmpty()), index))
    ensures 0 <= index < |old(form.ServicesOrEmpty())| ==>
      form.services.value == old(form.ServicesOrEmpty())[..index] + old(form.ServicesOrEmpty())[index + 1..]
    ensures !(0 <= index < |old(form.ServicesOrEmpty())|) ==> form.services.value == old(form.ServicesOrEmpty())
    ensures form.staff == old(form.staff)
  {
    var current := form.ServicesOrEmpty();
    DropPositionSpec(current, index);
    form.SetServices(DropPosition(current, index));
  }

  // ------------------------------------------------------------ experts field

  /** Trimming removes characters and never adds one. */
  lemma TrimAddsNothing(s: string, c: char)
    requires c !in s
    ensures c !in Trim(s)
  {
    TrimSlice(s);
    var i, j :| 0 <= i <= j <= |s| && Trim(s) == s[i..j];
    assert forall x :: x in s[i..j] ==> x in s;
  }

  /** `pieces.map(expert => expert.trim())` */
  function TrimAll(pieces: seq<string>): (r: seq<string>)
    ensures |r| == |pieces|
    ensures forall k :: 0 <= k < |r| ==> r[k] == Trim(pieces[k])
  {
    Map(Trim, pieces)
  }

  /** Every trimmed piece is trimmed, and a piece without a comma stays without one. */
  lemma TrimAllSpec(pieces: seq<string>)
    ensures forall k :: 0 <= k < |pieces| ==> Trimmed(TrimAll(pieces)[k])
    ensures forall k :: 0 <= k < |pieces| && ',' !in pieces[k] ==> ',' !in TrimAll(pieces)[k]
  {
    forall k | 0 <= k < |pieces|
      ensures Trimmed(TrimAll(pieces)[k]) && (',' !in pieces[k] ==> ',' !in TrimAll(pieces)[k])
    {
      TrimTrimmed(pieces[k]);
      if ',' !in pieces[k] {
        TrimAddsNothing(pieces[k], ',');
      }
    }
  }

  /** `.filter(Boolean)` on strings: drop the empty ones, keep the order. */
  function NonEmpty(xs: seq<string>): (r: seq<string>)
    ensures forall k :: 0 <= k < |r| ==> r[k] != ""
    ensures forall k :: 0 <= k < |r| ==> r[k] in xs
  {
    if xs == [] then []
    else (if xs[0] != "" then [xs[0]] else []) + NonEmpty(xs[1..])
  }

  /** `filter(Boolean)` works element by element: it distributes over
      concatenation, ... */
  lemma {:induction false} NonEmptyAppend(a: seq<string>, b: seq<string>)
    ensures NonEmpty(a + b) == NonEmpty(a) + NonEmpty(b)
  {
    if a == [] {
      assert a + b == b;
    } else {
      assert (a + b)[1..] == a[1..] + b;
      NonEmptyAppend(a[1..], b);
    }
  }

  /** ... and on one element keeps it exactly when it is non-empty. */
  lemma NonEmptySingle(x: string)
    ensures NonEmpty([x]) == if x != "" then [x] else []
  {
  }

  /** The experts field's `onChange`: split on commas, trim, drop empties.
      No expert is empty, has white space at either end, or holds a comma. */
  function ParseExperts(text: string): (r: seq<string>)
    ensures forall k :: 0 <= k < |r| ==> r[k] != "" && Trimmed(r[k]) && ',' !in r[k]
  {
    TrimAllSpec(Split(text, ','));
    NonEmpty(TrimAll(Split(text, ',')))
  }

  /** The experts field's `value`: `experts?.join(', ') || ''`. */
  function PrintExperts(experts: Option<seq<string>>): string
  {
    match experts
    case None => ""
    case Some(xs) => Join(xs, ", ")
  }

  /** An expert name the field can show and read back unchanged. */
  predicate Printable(x: string)
  {
    x != "" && Trimmed(x) && ',' !in x
  }

  /** The pieces after the first one when a list is joined with ", " and split on ','. */
  function SpacePrefixed(xs: seq<string>): (r: seq<string>)
    ensures |r| == |xs|
    ensures forall k :: 0 <= k < |r| ==> r[k] == [' '] + xs[k]
  {
    seq(|xs|, k requires 0 <= k < |xs| => [' '] + xs[k])
  }

  lemma SpacePrefixedCons(xs: seq<string>)
    requires |xs| >= 1
    ensures SpacePrefixed(xs) == [[' '] + xs[0]] + SpacePrefixed(xs[1..])
  {
  }

  /** Splitting the printed list on ',' gives the first expert, then every
      other one behind the space that followed its comma. */
  lemma {:induction false} SplitJoined(xs: seq<string>)
    requires |xs| >= 1
    requires forall k :: 0 <= k < |xs| ==> ',' !in xs[k]
    ensures Split(Join(xs, ", "), ',') == [xs[0]] + SpacePrefixed(xs[1..])
  {
    if |xs| == 1 {
      SplitNoSeparator(xs[0], ',');
    } else {
      var tail := Join(xs[1..], ", ");
      assert Join(xs, ", ") == xs[0] + [','] + ([' '] + tail);
      SplitAtSeparator(xs[0], [' '] + tail, ',');
      SplitJoined(xs[1..]);
      var rest := Split(tail, ',');
      assert rest == [xs[1]] + SpacePrefixed(xs[2..]);
      SplitCons(' ', tail, ',');
      assert rest[0] == xs[1] && rest[1..] == SpacePrefixed(xs[2..]);
      SpacePrefixedCons(xs[1..]);
      assert xs[1..][1..] == xs[2..];
    }
  }

  lemma {:induction false} NonEmptyKeepsAll(xs: seq<string>)
    requires forall k :: 0 <= k < |xs| ==> xs[k] != ""
    ensures NonEmpty(xs) == xs
  {
    if xs != [] {
      NonEmptyKeepsAll(xs[1..]);
      assert [xs[0]] + xs[1..] == xs;
    }
  }

  lemma {:induction false} NonEmptyDropsAll(xs: seq<string>)
    requires forall k :: 0 <= k < |xs| ==> xs[k] == ""
    ensures NonEmpty(xs) == []
  {
    if xs != [] {
      NonEmptyDropsAll(xs[1..]);
    }
  }

  /** A printable name, with or without the space a join put before it,
      trims back to itself. */
  lemma TrimPrintable(x: string)
    requires Printable(x)
    ensures Trim(x) == x && Trim([' '] + x) == x
  {
    TrimOfTrimmed(x);
    TrimLeadingSpace(x);
  }

  /** The pieces of a printed list: the first name, then each later name
      behind the space that followed its comma. */
  function PrintedPieces(xs: seq<string>): (r: seq<string>)
    ensures |r| == |xs|
    ensures forall k :: 0 <= k < |r| ==> r[k] == (if k == 0 then xs[0] else [' '] + xs[k])
  {
    seq(|xs|, k requires 0 <= k < |xs| => if k == 0 then xs[0] else [' '] + xs[k])
  }

  lemma PrintedPiecesAre(xs: seq<string>)
    requires |xs| >= 1
    ensures [xs[0]] + SpacePrefixed(xs[1..]) == PrintedPieces(xs)
  {
    var a, p := [xs[0]] + SpacePrefixed(xs[1..]), PrintedPieces(xs);
    assert |a| == |p|;
    forall k | 0 <= k < |xs| ensures a[k] == p[k] {
      if k > 0 {
        assert a[k] == SpacePrefixed(xs[1..])[k - 1] == [' '] + xs[k];
      }
    }
    assert a == p;
  }

  /** The text the field shows splits on ',' into the printed pieces: the
      first name, then each later name behind the space after its comma. */
  lemma PrintedTextPieces(xs: seq<string>)
    requires |xs| >= 1
    requires forall k :: 0 <= k < |xs| ==> ',' !in xs[k]
    ensures Split(PrintExperts(Some(xs)), ',') == PrintedPieces(xs)
  {
    SplitJoined(xs);
    PrintedPiecesAre(xs);
  }

  /** Trimming the pieces of a printed list recovers the list. */
  lemma TrimJoinedPieces(xs: seq<string>)
    requires |xs| >= 1
    requires forall k :: 0 <= k < |xs| ==> Printable(xs[k])
    ensures TrimAll(PrintedPieces(xs)) == xs
  {
    var r := TrimAll(PrintedPieces(xs));
    forall k | 0 <= k < |xs| ensures r[k] == xs[k] {
      TrimPrintable(xs[k]);
    }
  }

  /** Round trip: reading back the text the field shows gives the same experts,
      provided each is non-empty, trimmed and free of commas. */
  lemma ExpertsRoundTrip(xs: seq<string>)
    requires forall k :: 0 <= k < |xs| ==> Printable(xs[k])
    ensures ParseExperts(PrintExperts(Some(xs))) == xs
  {
    var text := PrintExperts(Some(xs));
    if xs == [] {
      assert text == "";
      SplitNoSeparator(text, ',');
      var trimmed := TrimAll([""]);
      TrimOfAllWhitespace("");
      assert trimmed[0] == "";
      NonEmptyDropsAll(trimmed);
    } else {
      PrintedTextPieces(xs);
      TrimJoinedPieces(xs);
      NonEmptyKeepsAll(xs);
    }
  }

  /** A trailing comma, as left while typing the next name, changes nothing. */
  lemma TrailingCommaIgnored(text: string)
    ensures ParseExperts(text + [',']) == ParseExperts(text)
  {
    var pieces := Split(text, ',');
    SplitAppendSeparator(text, ',');
    MapAppend(Trim, pieces, [""]);
    assert TrimAll([""]) == [""] by {
      TrimOfAllWhitespace("");
    }
    NonEmptyAppend(TrimAll(pieces), [""]);
    NonEmptySingle("");
  }

  /** Only commas and white space in the box: every piece is blank. */
  lemma {:induction false} SplitOfBlank(text: string)
    requires forall i :: 0 <= i < |text| ==> text[i] == ',' || IsWhitespace(text[i])
    ensures forall k :: 0 <= k < |Split(text, ',')| ==> AllWhitespace(Split(text, ',')[k])
  {
    if text != [] {
      SplitOfBlank(text[1..]);
    }
  }

  /** Text that is empty, or only commas and white space, yields no experts. */
  lemma BlankTextNoExperts(text: string)
    requires forall i :: 0 <= i < |text| ==> text[i] == ',' || IsWhitespace(text[i])
    ensures ParseExperts(text) == []
  {
    SplitOfBlank(text);
    var pieces := Split(text, ',');
    forall k | 0 <= k < |pieces| ensures TrimAll(pieces)[k] == "" {
      TrimOfAllWhitespace(pieces[k]);
    }
    NonEmptyDropsAll(TrimAll(pieces));
  }
}
