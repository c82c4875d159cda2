/**
 * Get-PrivateProfile (GetPrivateProfileCmmmand.cs): the whole profile, one section, or one
 * value, selected by Section and Key, which are rewritten to their stored spelling; the whole
 * profile and a section are written as copies into case-insensitive dictionaries.
 */
module GetPrivateProfile {
  import opened Common
  import opened Profiles

  /** What the cmdlet writes to the pipeline. */
  datatype ProfileObject =
    | SectionsObject(sections: Sections)
    | EntriesObject(entries: Entries)
    | ValueObject(value: string)

  /** The exceptions the cmdlet throws; DuplicateKey is the ArgumentException of Dictionary.Add. */
  datatype GetError =
    | InvalidOperation
    | FileNotFound(path: string)
    | KeyNotFound(name: string)
    | DuplicateKey(name: string)

  /** The names of the parameter sets. */
  const PathParameterSet: string := "Path"
  const InputObjectParameterSet: string := "InputObject"

  /**
   * Appending an item keeps the names free of case duplicates exactly when the new name is
   * not there yet, ignoring case.
   */
  lemma NoCaseDuplicatesSnoc<V>(items: seq<(string, V)>, item: (string, V))
    requires NoCaseDuplicates(items)
    ensures NoCaseDuplicates(items + [item]) <==> !ContainsIgnoringCase(items, item.0)
  {
    var all := items + [item];
    if ContainsIgnoringCase(items, item.0) {
      var j := FindIgnoringCase(items, item.0).value;
      assert all[j] == items[j] && all[|items|] == item;
      assert !(!SameIgnoringCase(all[j].0, all[|items|].0));
    } else {
      forall i, k | 0 <= i < k < |all|
        ensures !SameIgnoringCase(all[i].0, all[k].0)
      {
        if k < |items| {
          assert all[i] == items[i] && all[k] == items[k];
        } else {
          assert all[i] == items[i];
        }
      }
    }
  }

  /** A prefix of a sequence free of case duplicates is free of them too. */
  lemma NoCaseDuplicatesPrefix<V>(items: seq<(string, V)>, n: nat)
    requires n <= |items|
    ensures NoCaseDuplicates(items) ==> NoCaseDuplicates(items[..n])
  {
    assert forall i :: 0 <= i < n ==> items[..n][i] == items[i];
  }

  /**
   * GetPrivateProfileEntries: every entry added, in order, to a case-insensitive dictionary;
   * the first key equal to an earlier one ignoring case makes Add throw.
   */
  method CopyEntries(entries: Entries) returns (r: Result<Entries, GetError>)
    ensures r.Ok? <==> NoCaseDuplicates(entries)
    ensures r.Ok? ==> r.value == entries
    ensures r.Err? ==> r.error.DuplicateKey?
  {
    var copy: Entries := [];
    for i := 0 to |entries|
      invariant copy == entries[..i]
      invariant NoCaseDuplicates(copy)
    {
      var entry := entries[i];
      NoCaseDuplicatesSnoc(copy, entry);
      NoCaseDuplicatesPrefix(entries, i + 1);
      assert entries[..i + 1] == copy + [entry];
      if ContainsIgnoringCase(copy, entry.0) {
        return Err(DuplicateKey(entry.0));
      }
      copy := copy + [entry];
      assert copy == entries[..i + 1];
    }
    assert entries[..|entries|] == entries;
    r := Ok(copy);
  }

  /**
   * GetPrivateProfileSections: every section copied, in order, with its entries, into a
   * case-insensitive dictionary; a section's entries are copied before its name is added.
   */
  method CopySections(profile: Sections) returns (r: Result<Sections, GetError>)
    ensures r.Ok? <==> Copyable(profile)
    ensures r.Ok? ==> r.value == profile
    ensures r.Err? ==> r.error.DuplicateKey?
  {
    var copy: Sections := [];
    for i := 0 to |profile|
      invariant copy == profile[..i]
      invariant NoCaseDuplicates(copy)
      invariant forall k :: 0 <= k < i ==> NoCaseDuplicates(profile[k].1)
    {
      var name := profile[i].0;
      var entries := CopyEntries(profile[i].1);
      if entries.Err? {
        return Err(entries.error);
      }
      NoCaseDuplicatesSnoc(copy, (name, entries.value));
      NoCaseDuplicatesPrefix(profile, i + 1);
      assert profile[..i + 1] == copy + [(name, entries.value)];
      if ContainsIgnoringCase(copy, name) {
        return Err(DuplicateKey(name));
      }
      copy := copy + [(name, entries.value)];
      assert copy == profile[..i + 1];
    }
    assert profile[..|profile|] == profile;
    r := Ok(copy);
  }

  class GetPrivateProfileCommand {
    /** The Section and Key parameters, absent when not given; WriteProfile rewrites them. */
    var section: Option<string>
    var key: Option<string>
    var output: seq<ProfileObject>

    constructor(section: Option<string>, key: Option<string>)
      ensures this.section == section && this.key == key && output == []
    {
      this.section := section;
      this.key := key;
      output := [];
    }

    /**
     * WriteProfile: without Section, the whole profile; otherwise the section found ignoring
     * case (else KeyNotFoundException), whose stored name replaces Section, and then either all
     * of its entries or, with Key, the value of the key found ignoring case (else
     * KeyNotFoundException), whose stored name replaces Key.
     */
    method WriteProfile(profile: Sections) returns (error: Option<GetError>)
      modifies this`section, this`key, this`output
      ensures error.None? ==> |output| == |old(output)| + 1
      ensures error.Some? ==> output == old(output) && (error.value.KeyNotFound? || error.value.DuplicateKey?)
      ensures (section.Some? <==> old(section).Some?) && (key.Some? <==> old(key).Some?)
      ensures section.Some? ==> SameIgnoringCase(section.value, old(section).value)
      ensures key.Some? ==> SameIgnoringCase(key.value, old(key).value)
      ensures old(section).None? ==>
        && section == old(section) && key == old(key)
        && (Copyable(profile) ==> error.None? && output == old(output) + [SectionsObject(profile)])
        && (!Copyable(profile) ==> error.Some? && error.value.DuplicateKey?)
      ensures old(section).Some? && !ContainsIgnoringCase(profile, old(section).value) ==>
        error == Some(KeyNotFound(old(section).value)) && section == old(section) && key == old(key)
      ensures old(section).Some? && ContainsIgnoringCase(profile, old(section).value) ==>
        var i := FindIgnoringCase(profile, old(section).value).value;
        var entries := profile[i].1;
        && section == Some(profile[i].0)
        && (old(key).None? ==>
              && key == old(key)
              && (NoCaseDuplicates(entries) ==> error.None? && output == old(output) + [EntriesObject(entries)])
              && (!NoCaseDuplicates(entries) ==> error.Some? && error.value.DuplicateKey?))
        && (old(key).Some? && !ContainsIgnoringCase(entries, old(key).value) ==>
              error == Some(KeyNotFound(old(key).value)) && key == old(key))
        && (old(key).Some? && ContainsIgnoringCase(entries, old(key).value) ==>
              var j := FindIgnoringCase(entries, old(key).value).value;
              && key == Some(entries[j].0)
              && error.None? && output == old(output) + [ValueObject(entries[j].1)])
    {
      error := None;
      if section.None? {
        var sections := CopySections(profile);
        if sections.Err? {
          return Some(sections.error);
        }
        output := output + [SectionsObject(sections.value)];
        return;
      }
      if !ContainsIgnoringCase(profile, section.value) {
        return Some(KeyNotFound(section.value));
      }
      ghost var given := section.value;
      section := Some(Canonical(profile, section.value));
      CanonicalLookup(profile, given);
      var i := FindExact(profile, section.value).value;
      if key.None? {
        var entries := CopyEntries(profile[i].1);
        if entries.Err? {
          return Some(entries.error);
        }
        output := output + [EntriesObject(entries.value)];
        return;
      }
      if !ContainsIgnoringCase(profile[i].1, key.value) {
        return Some(KeyNotFound(key.value));
      }
      ghost var givenKey := key.value;
      key := Some(Canonical(profile[i].1, key.value));
      ValueOfCanonical(profile, given, givenKey);
      output := output + [ValueObject(ValueOf(profile, section.value, key.value).value)];
    }

    /**
     * ProcessRecord: by parameter set, each resolved file (which must exist) or the imported
     * InputObject goes through WriteProfile; any other parameter set is an error.
     */
    method ProcessRecord(parameterSetName: string, paths: seq<string>, files: map<string, Sections>,
                         inputObject: Sections)
      returns (error: Option<GetError>)
      modifies this`section, this`key, this`output
      ensures parameterSetName != PathParameterSet && parameterSetName != InputObjectParameterSet ==>
        error == Some(InvalidOperation) && output == old(output)
      ensures parameterSetName == InputObjectParameterSet ==>
        (error.None? ==> |output| == |old(output)| + 1) && (error.Some? ==> output == old(output))
      ensures parameterSetName == PathParameterSet && error.None? ==>
        |output| == |old(output)| + |paths| && forall p :: p in paths ==> p in files
      ensures parameterSetName == PathParameterSet && error.Some? && error.value.FileNotFound? ==>
        error.value.path in paths && error.value.path !in files
      ensures parameterSetName == PathParameterSet && error.Some? ==>
        exists n :: 0 <= n < |paths| && (forall m :: 0 <= m < n ==> paths[m] in files)
          && |output| == |old(output)| + n
          && (error.value.FileNotFound? ==> error.value == FileNotFound(paths[n]) && paths[n] !in files)
          && (!error.value.FileNotFound? ==> paths[n] in files && (error.value.KeyNotFound? || error.value.DuplicateKey?))
      ensures (section.Some? <==> old(section).Some?) && (key.Some? <==> old(key).Some?)
      ensures section.Some? ==> SameIgnoringCase(section.value, old(section).value)
      ensures key.Some? ==> SameIgnoringCase(key.value, old(key).value)
    {
      if parameterSetName == PathParameterSet {
        ghost var output0, section0, key0 := output, section, key;
        for n := 0 to |paths|
          invariant |output| == |output0| + n
          invariant forall p :: p in paths[..n] ==> p in files
          invariant (section.Some? <==> section0.Some?) && (key.Some? <==> key0.Some?)
          invariant section.Some? ==> SameIgnoringCase(section.value, section0.value)
          invariant key.Some? ==> SameIgnoringCase(key.value, key0.value)
        {
          var filepath := paths[n];
          if filepath !in files {
            assert forall m :: 0 <= m < n ==> paths[m] in paths[..n];
            return Some(FileNotFound(filepath));
          }
          error := WriteProfile(files[filepath]);
          if error.Some? {
            assert forall m :: 0 <= m < n ==> paths[m] in paths[..n];
            return;
          }
          assert paths[..n + 1] == paths[..n] + [filepath];
        }
        assert paths[..|paths|] == paths;
        error := None;
      } else if parameterSetName == InputObjectParameterSet {
        error := WriteProfile(inputObject);
      } else {
        error := Some(InvalidOperation);
      }
    }
  }
}
