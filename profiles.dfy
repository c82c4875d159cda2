/**
 * What Get-PrivateProfile and Set-PrivateProfile see of an INI profile (the PrivateProfile
 * class of BUILDLet.Standard.Utilities): sections in file order, each with its entries in
 * file order, and the name lookups they make, which ignore case.
 */
module Profiles {
  import opened Common

  /** The entries of a section: key and value, in order. */
  type Entries = seq<(string, string)>

  /** The sections of a profile: name and entries, in order. */
  type Sections = seq<(string, Entries)>

  /** The case folding of names: ASCII lower-case letters become upper-case. */
  function Upper(c: char): char
  {
    if 'a' <= c <= 'z' then (c as int - 32) as char else c
  }

  function Fold(s: string): string
  {
    seq(|s|, i requires 0 <= i < |s| => Upper(s[i]))
  }

  /** `string.Compare(a, b, true) == 0`. */
  predicate SameIgnoringCase(a: string, b: string)
  {
    Fold(a) == Fold(b)
  }

  /** Two names differing only in the case of a letter are the same name. */
  lemma CaseIsIgnored(a: string, b: string)
    requires |a| == |b|
    requires forall i :: 0 <= i < |a| ==> a[i] == b[i] || Upper(a[i]) == b[i] || a[i] == Upper(b[i])
    ensures SameIgnoringCase(a, b)
  {
    assert forall i :: 0 <= i < |a| ==> Fold(a)[i] == Fold(b)[i];
  }

  /** The index of the first item whose name equals `name` ignoring case. */
  function FindIgnoringCase<V>(items: seq<(string, V)>, name: string): (r: Option<nat>)
    ensures r.Some? ==> r.value < |items| && SameIgnoringCase(items[r.value].0, name)
    ensures r.Some? ==> forall j :: 0 <= j < r.value ==> !SameIgnoringCase(items[j].0, name)
    ensures r.None? ==> forall j :: 0 <= j < |items| ==> !SameIgnoringCase(items[j].0, name)
  {
    if |items| == 0 then None
    else if SameIgnoringCase(items[0].0, name) then Some(0)
    else
      match FindIgnoringCase(items[1..], name)
      case None => None
      case Some(k) => Some(k + 1)
  }

  /** The index of the first item named exactly `name`: an indexer of the dictionary. */
  function FindExact<V>(items: seq<(string, V)>, name: string): (r: Option<nat>)
    ensures r.Some? ==> r.value < |items| && items[r.value].0 == name
    ensures r.Some? ==> forall j :: 0 <= j < r.value ==> items[j].0 != name
    ensures r.None? ==> forall j :: 0 <= j < |items| ==> items[j].0 != name
  {
    if |items| == 0 then None
    else if items[0].0 == name then Some(0)
    else
      match FindExact(items[1..], name)
      case None => None
      case Some(k) => Some(k + 1)
  }

  /** `profile.Contains(name)` and `Entries.ContainsKey(name)`: some item has that name, ignoring case. */
  predicate ContainsIgnoringCase<V>(items: seq<(string, V)>, name: string)
  {
    FindIgnoringCase(items, name).Some?
  }

  /**
   * `(from n in Keys where string.Compare(n, name, true) == 0 select n).First()`: the
   * stored spelling of `name`, or `name` itself when no item has it.
   */
  function Canonical<V>(items: seq<(string, V)>, name: string): string
  {
    match FindIgnoringCase(items, name)
    case Some(i) => items[i].0
    case None => name
  }

  /**
   * The stored spelling leads back to the item it came from: an exact lookup of the
   * canonical name finds the first item equal to `name` ignoring case.
   */
  lemma CanonicalLookup<V>(items: seq<(string, V)>, name: string)
    requires ContainsIgnoringCase(items, name)
    ensures FindExact(items, Canonical(items, name)) == FindIgnoringCase(items, name)
  {
  }

  /** Canonicalising keeps the name equal to the one given, ignoring case, and does it once for all. */
  lemma CanonicalIdempotent<V>(items: seq<(string, V)>, name: string)
    ensures SameIgnoringCase(Canonical(items, name), name)
    ensures Canonical(items, Canonical(items, name)) == Canonical(items, name)
    ensures FindIgnoringCase(items, Canonical(items, name)) == FindIgnoringCase(items, name)
  {
    var c := Canonical(items, name);
    if ContainsIgnoringCase(items, name) {
      FindIgnoresCase(items, c, name);
    }
  }

  /** Names equal ignoring case are found at the same place and canonicalised alike. */
  lemma FindIgnoresCase<V>(items: seq<(string, V)>, a: string, b: string)
    requires SameIgnoringCase(a, b)
    ensures FindIgnoringCase(items, a) == FindIgnoringCase(items, b)
    ensures Canonical(items, a) == Canonical(items, b) || !ContainsIgnoringCase(items, a)
  {
  }

  /** No two items have names equal ignoring case: what a case-insensitive dictionary can hold. */
  predicate NoCaseDuplicates<V>(items: seq<(string, V)>)
  {
    forall i, j :: 0 <= i < j < |items| ==> !SameIgnoringCase(items[i].0, items[j].0)
  }

  /** Every section, and every section's entries, free of names equal ignoring case. */
  predicate Copyable(profile: Sections)
  {
    && NoCaseDuplicates(profile)
    && forall i :: 0 <= i < |profile| ==> NoCaseDuplicates(profile[i].1)
  }

  /** PrivateProfile.GetValue(section, key): the value under the exact names, if any. */
  function ValueOf(profile: Sections, section: string, key: string): Option<string>
  {
    match FindExact(profile, section)
    case None => None
    case Some(i) =>
      match FindExact(profile[i].1, key)
      case None => None
      case Some(j) => Some(profile[i].1[j].1)
  }

  /**
   * Looking a value up by the canonical names gives the entry found ignoring case: the
   * first matching key of the first matching section.
   */
  lemma ValueOfCanonical(profile: Sections, section: string, key: string)
    requires ContainsIgnoringCase(profile, section)
    requires ContainsIgnoringCase(profile[FindIgnoringCase(profile, section).value].1, key)
    ensures var i := FindIgnoringCase(profile, section).value;
      var j := FindIgnoringCase(profile[i].1, key).value;
      ValueOf(profile, Canonical(profile, section), Canonical(profile[i].1, key)) == Some(profile[i].1[j].1)
  {
    var i := FindIgnoringCase(profile, section).value;
    CanonicalLookup(profile, section);
    CanonicalLookup(profile[i].1, key);
  }
}
