/**
 * Set-PrivateProfile (SetPrivateProfileCmmmand.cs): for each resolved file, which must exist,
 * Section is rewritten to its stored spelling when the section exists, and Key too when the
 * key also exists; then one SetValue(Section, Key, Value).Write() is made on the file.
 */
module SetPrivateProfile {
  import opened Common
  import opened Profiles

  /** One `profile.SetValue(section, key, value).Write()` on the file at `path`. */
  datatype SetValueCall = SetValueCall(path: string, section: string, key: string, value: string)

  /** The exception the cmdlet throws. */
  datatype SetError = FileNotFound(path: string)

  /**
   * The Section and Key after the existence checks on one file holding `profile`: the stored
   * spelling of the section when the file has it, and then the stored spelling of the key when
   * that section has it; otherwise the names exactly as they were.
   */
  function Rewrite(profile: Sections, section: string, key: string): (names: (string, string))
    ensures SameIgnoringCase(names.0, section) && SameIgnoringCase(names.1, key)
    ensures !ContainsIgnoringCase(profile, section) ==> names == (section, key)
    ensures ContainsIgnoringCase(profile, section) ==>
      ContainsIgnoringCase(profile, names.0) && names.0 == profile[FindIgnoringCase(profile, section).value].0
  {
    if !ContainsIgnoringCase(profile, section) then (section, key)
    else
      var i := FindIgnoringCase(profile, section).value;
      CanonicalIdempotent(profile, section);
      CanonicalIdempotent(profile[i].1, key);
      (profile[i].0, Canonical(profile[i].1, key))
  }

  /** Rewriting names already rewritten for the same file leaves them as they are. */
  lemma RewriteIdempotent(profile: Sections, section: string, key: string)
    ensures var names := Rewrite(profile, section, key);
      Rewrite(profile, names.0, names.1) == names
  {
    if ContainsIgnoringCase(profile, section) {
      var i := FindIgnoringCase(profile, section).value;
      var names := Rewrite(profile, section, key);
      FindIgnoresCase(profile, names.0, section);
      CanonicalIdempotent(profile[i].1, key);
    }
  }

  /**
   * The Section and Key after the files `paths` (all present) have been processed from the
   * given ones: each file's rewrite is carried over to the next file.
   */
  function NamesAfter(paths: seq<string>, files: map<string, Sections>, section: string, key: string)
    : (names: (string, string))
    requires forall n :: 0 <= n < |paths| ==> paths[n] in files
    ensures SameIgnoringCase(names.0, section) && SameIgnoringCase(names.1, key)
  {
    if |paths| == 0 then (section, key)
    else
      var before := NamesAfter(paths[..|paths| - 1], files, section, key);
      Rewrite(files[paths[|paths| - 1]], before.0, before.1)
  }

  /** The SetValue calls made on the files `paths` (all present): one per file, with the names after it. */
  function Calls(paths: seq<string>, files: map<string, Sections>, section: string, key: string, value: string)
    : (calls: seq<SetValueCall>)
    requires forall n :: 0 <= n < |paths| ==> paths[n] in files
    ensures |calls| == |paths|
    ensures forall n :: 0 <= n < |paths| ==> calls[n].path == paths[n] && calls[n].value == value
  {
    if |paths| == 0 then []
    else
      var names := NamesAfter(paths, files, section, key);
      Calls(paths[..|paths| - 1], files, section, key, value) + [SetValueCall(paths[|paths| - 1], names.0, names.1, value)]
  }

  /**
   * A call made on a file holding `profile` for the Section and Key given first: both equal
   * to the given ones ignoring case, the section in its stored spelling when the file has it,
   * and the key too when that section has it.
   */
  predicate CanonicalCall(call: SetValueCall, path: string, profile: Sections, section0: string, key0: string,
                          value: string)
  {
    && call.path == path && call.value == value
    && SameIgnoringCase(call.section, section0) && SameIgnoringCase(call.key, key0)
    && (ContainsIgnoringCase(profile, section0) ==>
          var i := FindIgnoringCase(profile, section0).value;
          && call.section == profile[i].0
          && (ContainsIgnoringCase(profile[i].1, key0) ==> call.key == Canonical(profile[i].1, key0)))
  }

  /**
   * Whatever spelling earlier files carried over, every call uses the stored spelling of the
   * file it is made on, where that file has the section (and the key).
   */
  lemma {:induction false} CallsCanonical(paths: seq<string>, files: map<string, Sections>, section: string,
                                          key: string, value: string)
    requires forall n :: 0 <= n < |paths| ==> paths[n] in files
    ensures var calls := Calls(paths, files, section, key, value);
      forall n :: 0 <= n < |paths| ==> CanonicalCall(calls[n], paths[n], files[paths[n]], section, key, value)
  {
    if |paths| > 0 {
      var init := paths[..|paths| - 1];
      var last := paths[|paths| - 1];
      CallsCanonical(init, files, section, key, value);
      var calls := Calls(paths, files, section, key, value);
      assert forall n :: 0 <= n < |init| ==> calls[n] == Calls(init, files, section, key, value)[n];
      var before := NamesAfter(init, files, section, key);
      var profile := files[last];
      FindIgnoresCase(profile, before.0, section);
      if ContainsIgnoringCase(profile, section) {
        var i := FindIgnoringCase(profile, section).value;
        FindIgnoresCase(profile[i].1, before.1, key);
      }
      assert CanonicalCall(calls[|paths| - 1], last, profile, section, key, value);
    }
  }

  /** When no file has the section, every call uses the Section and Key exactly as given. */
  lemma {:induction false} AbsentSectionKeepsNames(paths: seq<string>, files: map<string, Sections>,
                                                   section: string, key: string, value: string)
    requires forall n :: 0 <= n < |paths| ==> paths[n] in files
    requires forall n :: 0 <= n < |paths| ==> !ContainsIgnoringCase(files[paths[n]], section)
    ensures NamesAfter(paths, files, section, key) == (section, key)
    ensures Calls(paths, files, section, key, value) == seq(|paths|, n requires 0 <= n < |paths| => SetValueCall(paths[n], section, key, value))
  {
    if |paths| > 0 {
      var init := paths[..|paths| - 1];
      AbsentSectionKeepsNames(init, files, section, key, value);
    }
  }

  class SetPrivateProfileCommand {
    /** The Section and Key parameters, rewritten from file to file. */
    var section: string
    var key: string
    const value: string
    /** The SetValue calls made, in order. */
    var writes: seq<SetValueCall>

    constructor(section: string, key: string, value: string)
      ensures this.section == section && this.key == key && this.value == value && writes == []
    {
      this.section := section;
      this.key := key;
      this.value := value;
      writes := [];
    }

    /** The names rewritten for one file, as the two existence checks allow. */
    method Canonicalize(profile: Sections)
      modifies this`section, this`key
      ensures (section, key) == Rewrite(profile, old(section), old(key))
    {
      CanonicalIdempotent(profile, section);
      if ContainsIgnoringCase(profile, section) {
        ghost var given := section;
        section := Canonical(profile, section);
        CanonicalLookup(profile, given);
        var i := FindExact(profile, section).value;
        CanonicalIdempotent(profile[i].1, key);
        if ContainsIgnoringCase(profile[i].1, key) {
          key := Canonical(profile[i].1, key);
        }
      }
    }

    /** One resolved file: it must exist; then the names are rewritten and one SetValue call made. */
    method SetOne(path: string, files: map<string, Sections>) returns (error: Option<SetError>)
      modifies this`section, this`key, this`writes
      ensures error.Some? <==> path !in files
      ensures error.Some? ==>
        error == Some(FileNotFound(path)) && writes == old(writes) && section == old(section) && key == old(key)
      ensures error.None? ==>
        && (section, key) == Rewrite(files[path], old(section), old(key))
        && writes == old(writes) + [SetValueCall(path, section, key, value)]
    {
      if path !in files {
        return Some(FileNotFound(path));
      }
      Canonicalize(files[path]);
      writes := writes + [SetValueCall(path, section, key, value)];
      error := None;
    }

    /**
     * ProcessRecord: the resolved files in order, each rewriting the names carried over from
     * the one before; the first missing file throws before anything is written to it, every
     * file before it has had its one call.
     */
    method ProcessRecord(paths: seq<string>, files: map<string, Sections>) returns (error: Option<SetError>)
      modifies this`section, this`key, this`writes
      ensures error.None? ==>
        && (forall n :: 0 <= n < |paths| ==> paths[n] in files)
        && writes == old(writes) + Calls(paths, files, old(section), old(key), value)
        && (section, key) == NamesAfter(paths, files, old(section), old(key))
        && forall n :: 0 <= n < |paths| ==>
             CanonicalCall(writes[|old(writes)| + n], paths[n], files[paths[n]], old(section), old(key), value)
      ensures error.Some? ==>
        exists n :: 0 <= n < |paths| && error == Some(FileNotFound(paths[n])) && paths[n] !in files
          && (forall m :: 0 <= m < n ==> paths[m] in files)
          && writes == old(writes) + Calls(paths[..n], files, old(section), old(key), value)
          && (section, key) == NamesAfter(paths[..n], files, old(section), old(key))
    {
      ghost var writes0, section0, key0 := writes, section, key;
      for n := 0 to |paths|
        invariant forall m :: 0 <= m < n ==> paths[m] in files
        invariant writes == writes0 + Calls(paths[..n], files, section0, key0, value)
        invariant (section, key) == NamesAfter(paths[..n], files, section0, key0)
      {
        error := SetOne(paths[n], files);
        if error.Some? {
          return;
        }
        assert paths[..n + 1][..n] == paths[..n];
      }
      assert paths[..|paths|] == paths;
      CallsCanonical(paths, files, section0, key0, value);
      error := None;
    }
  }
}
