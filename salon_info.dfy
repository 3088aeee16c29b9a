/** The salon details panel's contact address, derived from the salon's name:
    `contact@` + the name lower-cased with every white-space run removed + `.com`. */
module SalonInfo {
  import opened JsStrings

  const AddressPrefix: string := "contact@"
  const AddressSuffix: string := ".com"

  /** `salon.name.toLowerCase().replace(/\s+/g, '')` */
  function LocalPart(name: string): string
  {
    RemoveWhitespace(Lower(name))
  }

  /** White-space removal keeps only characters of its input. */
  lemma {:induction false} RemoveWhitespaceKeeps(s: string)
    ensures forall k :: 0 <= k < |RemoveWhitespace(s)| ==> RemoveWhitespace(s)[k] in s
  {
    if s != [] {
      RemoveWhitespaceKeeps(s[1..]);
      assert forall c :: c in s[1..] ==> c in s;
    }
  }

  /** The address shown for a salon: it starts with "contact@", ends with
      ".com", and between them holds no white space and no ASCII capital. */
  function ContactEmail(name: string): (r: string)
    ensures AddressPrefix <= r
    ensures |r| >= |AddressPrefix| + |AddressSuffix| && r[|r| - |AddressSuffix|..] == AddressSuffix
    ensures r[|AddressPrefix|..|r| - |AddressSuffix|] == LocalPart(name)
    ensures forall k :: |AddressPrefix| <= k < |r| - |AddressSuffix| ==> !IsWhitespace(r[k])
    ensures forall k :: |AddressPrefix| <= k < |r| - |AddressSuffix| ==> !('A' <= r[k] <= 'Z')
  {
    LocalPartClean(name);
    Framed(AddressPrefix, LocalPart(name), AddressSuffix);
    AddressPrefix + LocalPart(name) + AddressSuffix
  }

  /** The local part holds no white space and no ASCII capital. */
  lemma LocalPartClean(name: string)
    ensures forall k :: 0 <= k < |LocalPart(name)| ==>
      !IsWhitespace(LocalPart(name)[k]) && !('A' <= LocalPart(name)[k] <= 'Z')
  {
    var lower := Lower(name);
    RemoveWhitespaceKeeps(lower);
    forall k | 0 <= k < |LocalPart(name)|
      ensures !('A' <= LocalPart(name)[k] <= 'Z')
    {
      var i :| 0 <= i < |lower| && lower[i] == LocalPart(name)[k];
    }
  }

  /** The middle of `p + m + q`, position by position. */
  lemma Framed(p: string, m: string, q: string)
    ensures (p + m + q)[|p|..|p| + |m|] == m
    ensures forall k :: |p| <= k < |p| + |m| ==> (p + m + q)[k] == m[k - |p|]
  {
  }

  /** A name already in lower case and without white space is the local part
      itself. */
  lemma PlainNameAddress(name: string)
    requires forall k :: 0 <= k < |name| ==> !IsWhitespace(name[k]) && !('A' <= name[k] <= 'Z')
    ensures ContactEmail(name) == "contact@" + name + ".com"
  {
    assert Lower(name) == name;
    assert LocalPart(name) == name;
  }

  /** Two names share an address exactly when their local parts agree. */
  lemma SameAddressIffSameLocalPart(a: string, b: string)
    ensures ContactEmail(a) == ContactEmail(b) <==> LocalPart(a) == LocalPart(b)
  {
    if ContactEmail(a) == ContactEmail(b) {
      var r := ContactEmail(a);
      assert LocalPart(a) == r[|AddressPrefix|..|r| - |AddressSuffix|] == LocalPart(b);
    }
  }

  /** Lower-casing leaves white space alone, so a white-space run stays one
      that the replacement removes. */
  lemma {:induction false} LowerWhitespaceRemoved(w: string)
    requires AllWhitespace(w)
    ensures RemoveWhitespace(Lower(w)) == ""
  {
    if w != [] {
      LowerAppend([w[0]], w[1..]);
      assert [w[0]] + w[1..] == w;
      LowerWhitespaceRemoved(w[1..]);
      RemoveWhitespaceAppend(Lower([w[0]]), Lower(w[1..]));
    }
  }

  /** Inserting white space anywhere in the name gives the same address. */
  lemma WhitespaceInsensitive(before: string, w: string, after: string)
    requires AllWhitespace(w)
    ensures ContactEmail(before + w + after) == ContactEmail(before + after)
  {
    LowerAppend(before + w, after);
    LowerAppend(before, w);
    LowerAppend(before, after);
    RemoveWhitespaceAppend(Lower(before) + Lower(w), Lower(after));
    RemoveWhitespaceAppend(Lower(before), Lower(w));
    RemoveWhitespaceAppend(Lower(before), Lower(after));
    LowerWhitespaceRemoved(w);
    SameAddressIffSameLocalPart(before + w + after, before + after);
  }

  /** Changing the case of ASCII letters in the name gives the same address. */
  lemma CaseInsensitive(name: string)
    ensures ContactEmail(Upper(name)) == ContactEmail(name)
    ensures ContactEmail(Lower(name)) == ContactEmail(name)
  {
    assert Lower(Upper(name)) == Lower(name);
    assert Lower(Lower(name)) == Lower(name);
    SameAddressIffSameLocalPart(Upper(name), name);
    SameAddressIffSameLocalPart(Lower(name), name);
  }
}
