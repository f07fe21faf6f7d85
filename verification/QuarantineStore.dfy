/**
 The quarantine directory as one process changes it: create, link, remove, read
 and prune, in place. System calls may fail, as the caller's `Faults` decide.
 What other processes and crashes do is the business of QuarantineCrash.
 */
module QuarantineStore {
  import opened Wrappers
  import opened Text
  import opened QuarantineCrash
  import BindingId

  /** A directory entry: an ordinary file, or anything else (a link, a directory). */
  datatype Node = Regular(bytes: string, mtime: int) | Irregular

  datatype Error = InvalidId | AlreadyExists | NotFound | Irregularity | IoFailure | Conflict

  /** Which system calls of one publication fail. */
  datatype Faults = Faults(create: bool, write: bool, flush: bool, link: bool, syncDirectory: bool, unlinkTemp: bool)

  predicate IsHex(c: char) {
    '0' <= c <= '9' || 'a' <= c <= 'f' || 'A' <= c <= 'F'
  }

  predicate Hexadecimal(s: string) {
    forall i | 0 <= i < |s| :: IsHex(s[i])
  }

  const TEMP_SUFFIX := ".tmp"

  /** validPublicationTempName. */
  predicate ValidTempName(name: string) {
    && HasPrefix(name, TEMP_PREFIX) && HasSuffix(name, TEMP_SUFFIX)
    && |name| == |TEMP_PREFIX| + 32 + |TEMP_SUFFIX|
    && forall c | c in name[|TEMP_PREFIX|..|TEMP_PREFIX| + 32] :: IsHex(c)
  }

  /** A name PruneBefore may remove: a capability's or a private file's. */
  predicate WellFormed(name: string) {
    if HasPrefix(name, TEMP_PREFIX) then ValidTempName(name)
    else HasSuffix(name, FINAL_SUFFIX) && ValidId(name[..|name| - |FINAL_SUFFIX|])
  }

  /** A name PruneBefore does not look at. */
  predicate Ignored(name: string) {
    !HasPrefix(name, TEMP_PREFIX) && !HasSuffix(name, FINAL_SUFFIX)
  }

  type Entries = map<string, Node>

  predicate Expired(entries: Entries, name: string, cutoff: int) {
    WellFormed(name) && name in entries && entries[name].Regular? && entries[name].mtime <= cutoff
  }

  /** A listed name that stops the sweep: malformed, vanished, or no ordinary file. */
  predicate Suspicious(entries: Entries, name: string) {
    !Ignored(name) && (!WellFormed(name) || name !in entries || entries[name].Irregular?)
  }

  /** The names of a listing that a sweep gets to. */
  function Reached(entries: Entries, listing: seq<string>): (n: nat)
    ensures n <= |listing|
  {
    if listing == [] || Suspicious(entries, listing[0]) then 0 else 1 + Reached(entries, listing[1..])
  }

  /** The expired files among these names. */
  function Swept(entries: Entries, names: seq<string>, cutoff: int): set<string> {
    if names == [] then {}
    else
      var last := names[|names| - 1];
      Swept(entries, names[..|names| - 1], cutoff) + (if Expired(entries, last, cutoff) then {last} else {})
  }

  lemma {:induction false} SweptAre(entries: Entries, names: seq<string>, cutoff: int, x: string)
    ensures x in Swept(entries, names, cutoff) <==> x in names && Expired(entries, x, cutoff)
  {
    hide Expired;
    if names != [] {
      SweptAre(entries, names[..|names| - 1], cutoff, x);
      assert names == names[..|names| - 1] + [names[|names| - 1]];
    }
  }

  class Store {
    var entries: Entries

    constructor ()
      ensures entries == map[]
    {
      entries := map[];
    }

    /** ReadID. */
    method ReadId(id: string) returns (r: Result<string, Error>)
      ensures r == if !ValidId(id) then Err(InvalidId)
                   else if FinalName(id) !in entries then Err(NotFound)
                   else if entries[FinalName(id)].Irregular? then Err(Irregularity)
                   else Ok(entries[FinalName(id)].bytes)
    {
      if !ValidId(id) {
        return Err(InvalidId);
      }
      var name := FinalName(id);
      if name !in entries {
        return Err(NotFound);
      }
      match entries[name] {
        case Irregular => return Err(Irregularity);
        case Regular(bytes, _) => return Ok(bytes);
      }
    }

    /** Removes one capability and touches nothing else. */
    method Remove(id: string) returns (e: Option<Error>)
      modifies this
      ensures e == if !ValidId(id) then Some(InvalidId)
                   else if FinalName(id) !in old(entries) then Some(NotFound)
                   else if old(entries)[FinalName(id)].Irregular? then Some(Irregularity)
                   else None
      ensures entries == if e == None then old(entries) - {FinalName(id)} else old(entries)
    {
      var read := ReadId(id);
      if read.Err? {
        return Some(read.error);
      }
      entries := entries - {FinalName(id)};
      return None;
    }

    /**
     put: the content goes to a private file first and appears under the final
     name whole or not at all; an existing file is never replaced. A private file
     is left over only where its own removal failed, and the final name without a
     reported success only where the directory sync failed.
     */
    method Put(id: string, content: string, temp: string, now: int, faults: Faults) returns (e: Option<Error>)
      requires ValidTempName(temp) && temp !in entries
      modifies this
      ensures e == None <==>
                && ValidId(id) && FinalName(id) !in old(entries)
                && !faults.create && !faults.write && !faults.flush && !faults.link && !faults.syncDirectory
      ensures e == Some(AlreadyExists) <==>
                && ValidId(id) && FinalName(id) in old(entries)
                && !faults.create && !faults.write && !faults.flush && !faults.link
      ensures forall name | name != temp && name != FinalName(id) ::
                (name in entries <==> name in old(entries)) && (name in entries ==> entries[name] == old(entries)[name])
      ensures FinalName(id) in old(entries) ==>
                FinalName(id) in entries && entries[FinalName(id)] == old(entries)[FinalName(id)]
      ensures e == None ==> FinalName(id) in entries && entries[FinalName(id)] == Regular(content, now)
      ensures FinalName(id) in entries && FinalName(id) !in old(entries) ==>
                entries[FinalName(id)] == Regular(content, now) && (e == None || faults.syncDirectory)
      ensures temp in entries ==> faults.unlinkTemp
    {
      if !ValidId(id) {
        return Some(InvalidId);
      }
      NamesAreApart(id, id);
      if faults.create {
        return Some(IoFailure);
      }
      entries := entries[temp := Regular("", now)];
      e := Fill(id, content, temp, now, faults);
      if !faults.unlinkTemp {
        entries := entries - {temp};
      }
    }

    /** The part of put between creating the private file and dropping it. */
    method Fill(id: string, content: string, temp: string, now: int, faults: Faults) returns (e: Option<Error>)
      requires ValidId(id) && temp in entries && temp != FinalName(id)
      modifies this
      ensures e == None <==>
                && FinalName(id) !in old(entries) && !faults.write && !faults.flush && !faults.link
                && !faults.syncDirectory
      ensures e == Some(AlreadyExists) <==>
                FinalName(id) in old(entries) && !faults.write && !faults.flush && !faults.link
      ensures var linked := !faults.write && !faults.flush && !faults.link && FinalName(id) !in old(entries);
              exists partial :: var filled := old(entries)[temp := Regular(partial, now)];
                entries == if linked then filled[FinalName(id) := Regular(content, now)] else filled
    {
      if faults.write {
        entries := entries[temp := Regular(content[..|content| / 2], now)];
        return Some(IoFailure);
      }
      entries := entries[temp := Regular(content, now)];
      if faults.flush {
        return Some(IoFailure);
      }
      var name := FinalName(id);
      if faults.link {
        return Some(IoFailure);
      }
      if name in entries {
        return Some(AlreadyExists);
      }
      entries := entries[name := entries[temp]];
      assert entries == old(entries)[temp := Regular(content, now)][name := Regular(content, now)];
      if faults.syncDirectory {
        return Some(IoFailure);
      }
      var read := ReadId(id);
      if read != Ok(content) {
        return Some(Conflict);
      }
      return None;
    }

    /** ensure, undisturbed: identical content is success, different content a conflict, and neither changes the file. */
    method Ensure(id: string, content: string, temp: string, now: int, faults: Faults) returns (e: Option<Error>)
      requires ValidTempName(temp) && temp !in entries
      modifies this
      ensures e == None ==> FinalName(id) in entries && entries[FinalName(id)].Regular? && entries[FinalName(id)].bytes == content
      ensures FinalName(id) in old(entries) ==>
                FinalName(id) in entries && entries[FinalName(id)] == old(entries)[FinalName(id)]
      ensures ValidId(id) && faults == Faults(false, false, false, false, false, false) ==>
                (e == None <==> FinalName(id) !in old(entries) ||
                                (old(entries)[FinalName(id)].Regular? && old(entries)[FinalName(id)].bytes == content))
      ensures forall name | name != temp && name != FinalName(id) ::
                (name in entries <==> name in old(entries)) && (name in entries ==> entries[name] == old(entries)[name])
    {
      e := Put(id, content, temp, now, faults);
      if e != Some(AlreadyExists) {
        return;
      }
      var existing := ReadId(id);
      if existing.Err? {
        return Some(existing.error);
      }
      if existing.value != content {
        return Some(Conflict);
      }
      if faults.syncDirectory {
        return Some(IoFailure);
      }
      var settled := ReadId(id);
      if settled != Ok(content) {
        return Some(Conflict);
      }
      return None;
    }

    /**
     PruneBefore over one directory listing: every expired well-formed file up to
     the first suspicious entry is removed, and nothing else is.
     */
    method PruneBefore(listing: seq<string>, cutoff: int) returns (removed: nat, ok: bool)
      requires forall i, j | 0 <= i < j < |listing| :: listing[i] != listing[j]
      modifies this
      ensures var n := Reached(old(entries), listing);
              && entries == old(entries) - Swept(old(entries), listing[..n], cutoff)
              && removed == |Swept(old(entries), listing[..n], cutoff)|
              && (ok <==> n == |listing|)
    {
      hide WellFormed, Ignored, Expired;
      removed := 0;
      ghost var gone: set<string> := {};
      assert listing[0..] == listing;
      for i := 0 to |listing|
        invariant Reached(old(entries), listing) == i + Reached(old(entries), listing[i..])
        invariant gone == Swept(old(entries), listing[..i], cutoff)
        invariant entries == old(entries) - gone && removed == |gone|
      {
        var name := listing[i];
        assert listing[i..][0] == name && listing[i..][1..] == listing[i + 1..];
        assert listing[..i + 1][..i] == listing[..i];
        SweptAre(old(entries), listing[..i], cutoff, name);
        ExpiredIs(old(entries), name, cutoff);
        if Ignored(name) {
          IgnoredStays(old(entries), name, cutoff);
          continue;
        }
        if !WellFormed(name) || name !in entries || entries[name].Irregular? {
          assert Suspicious(old(entries), name);
          assert Reached(old(entries), listing) == i;
          return removed, false;
        }
        if entries[name].mtime > cutoff {
          continue;
        }
        entries := entries - {name};
        removed := removed + 1;
        gone := gone + {name};
      }
      assert listing[..|listing|] == listing;
      return removed, true;
    }
  }

  /** What a sweep that got this far removes. */
  lemma SweepIs(entries: Entries, listing: seq<string>, reached: seq<string>, cutoff: int)
    requires reached <= listing
    ensures forall name | name in Swept(entries, reached, cutoff) ::
              && name in listing && name in entries && entries[name].Regular? && entries[name].mtime <= cutoff
              && (HasPrefix(name, ".publish-") || HasSuffix(name, ".candidate"))
    ensures Reached(entries, listing) == |listing| && reached == listing ==>
              forall name | name in listing && (HasPrefix(name, ".publish-") || HasSuffix(name, ".candidate")) ::
                && name in entries && entries[name].Regular?
                && (entries[name].mtime <= cutoff ==> name in Swept(entries, reached, cutoff))
  {
    hide ValidTempName, ValidId;
    forall name ensures name in Swept(entries, reached, cutoff) <==> name in reached && Expired(entries, name, cutoff) {
      SweptAre(entries, reached, cutoff, name);
    }
    forall name | name in reached ensures name in listing {
      var i :| 0 <= i < |reached| && reached[i] == name;
      assert listing[i] == name;
    }
    if Reached(entries, listing) == |listing| {
      forall name | name in listing ensures !Suspicious(entries, name) {
        ReachedAll(entries, listing, name);
      }
    }
  }

  lemma {:induction false} ReachedAll(entries: Entries, listing: seq<string>, name: string)
    requires Reached(entries, listing) == |listing| && name in listing
    ensures !Suspicious(entries, name)
  {
    hide Suspicious;
    if name != listing[0] {
      assert name in listing[1..];
      ReachedAll(entries, listing[1..], name);
    }
  }

  // ------------------------------------------------------------------- names

  /** A private name is the prefix, 32 hexadecimal digits and the suffix, whoever made it. */
  lemma TempNames(name: string)
    ensures ValidTempName(name) <==>
            exists nonce :: |nonce| == 32 && (forall c | c in nonce :: IsHex(c)) && name == ".publish-" + nonce + ".tmp"
  {
    hide IsHex;
    if ValidTempName(name) {
      var nonce := name[|TEMP_PREFIX|..|TEMP_PREFIX| + 32];
      assert name == ".publish-" + nonce + ".tmp" by {
        assert name == name[..|TEMP_PREFIX|] + nonce + name[|TEMP_PREFIX| + 32..];
        assert name[|name| - |TEMP_SUFFIX|..] == TEMP_SUFFIX;
      }
    }
    if nonce :| |nonce| == 32 && (forall c | c in nonce :: IsHex(c)) && name == ".publish-" + nonce + ".tmp" {
      assert name[..|TEMP_PREFIX|] == TEMP_PREFIX && name[|TEMP_PREFIX|..|TEMP_PREFIX| + 32] == nonce;
      assert name[|name| - |TEMP_SUFFIX|..] == TEMP_SUFFIX;
    }
  }

  /** The sweep knows the store's own names, and takes nothing else for one. */
  lemma SweepKnowsItsNames(name: string)
    ensures WellFormed(name) <==> ValidTempName(name) || exists id :: ValidId(id) && name == id + ".candidate"
    ensures WellFormed(name) ==> !Ignored(name)
  {
    hide ValidTempName;
    TempNames(name);
    if WellFormed(name) && !HasPrefix(name, TEMP_PREFIX) {
      var id := name[..|name| - |FINAL_SUFFIX|];
      assert name == id + ".candidate";
    }
    if id :| ValidId(id) && name == id + ".candidate" {
      NamesAreApart(id, id);
      assert name[..|name| - |FINAL_SUFFIX|] == id && name[|name| - |FINAL_SUFFIX|..] == FINAL_SUFFIX;
    }
    TempHasPrefix(name);
  }

  lemma TempHasPrefix(name: string)
    ensures ValidTempName(name) ==> HasPrefix(name, TEMP_PREFIX)
  {
  }

  /** No id leads out of the directory: its file name has no separator, no NUL, and only the suffix's dot. */
  lemma NamesStayInside(id: string)
    requires ValidId(id)
    ensures '/' !in FinalName(id) && '\\' !in FinalName(id) && '\0' !in FinalName(id)
    ensures '.' !in id && FinalName(id) != "." && FinalName(id) != ".."
  {
    assert |FinalName(id)| > 2;
    forall c | c in FinalName(id) ensures c != '/' && c != '\\' && c != '\0' {
      var i :| 0 <= i < |FinalName(id)| && FinalName(id)[i] == c;
      if i < |id| {
        assert c == id[i];
      } else {
        assert c == FINAL_SUFFIX[i - |id|];
      }
    }
  }

  lemma PrefixIsPlain(k: nat)
    requires k < |BindingId.PREFIX|
    ensures 'a' <= BindingId.PREFIX[k] <= 'z' || BindingId.PREFIX[k] == '-'
  {
    assert BindingId.PREFIX == ['b', 'o', 'u', 'n', 'd', '-'];
  }

  /** The capability names the ledger makes are ids of the store, if the digest is written in hexadecimal. */
  lemma CapabilityNamesAreIds(sha256: string -> string, i: BindingId.Identity)
    requires BindingId.Id(sha256, i).Some? && forall x :: Hexadecimal(sha256(x))
    ensures ValidId(BindingId.Id(sha256, i).value)
  {
    hide BindingId.Encode;
    var digest := sha256(BindingId.Encode(BindingId.Fields(i)));
    var name := BindingId.PREFIX + digest;
    forall k | 0 <= k < |name|
      ensures 'a' <= name[k] <= 'z' || 'A' <= name[k] <= 'Z' || '0' <= name[k] <= '9' || name[k] == '-' || name[k] == '_'
    {
      if k >= |BindingId.PREFIX| {
        assert Hexadecimal(digest) && name[k] == digest[k - |BindingId.PREFIX|];
      } else {
        PrefixIsPlain(k);
        assert name[k] == BindingId.PREFIX[k];
      }
    }
  }

  lemma ExpiredIs(entries: Entries, name: string, cutoff: int)
    ensures Expired(entries, name, cutoff) <==>
            WellFormed(name) && name in entries && entries[name].Regular? && entries[name].mtime <= cutoff
  {
  }

  lemma IgnoredStays(entries: Entries, name: string, cutoff: int)
    requires Ignored(name)
    ensures !Expired(entries, name, cutoff) && !Suspicious(entries, name)
  {
  }
}
