/**
 * The key of a stored avatar: how the drive backend names a file, and how it reads a key back from
 * whatever URL the account carries.
 */
module AvatarKeys {
  import opened Wrappers
  import AccountPaths

  /** `indexOf`. */
  function IndexOf(s: string, marker: string): Option<nat> {
    if marker <= s then Some(0)
    else if s == "" then None
    else
      var i := IndexOf(s[1..], marker);
      if i.Some? then Some(i.value + 1) else None
  }

  /** The text before a query string or a fragment. */
  function BeforeQuery(s: string): string {
    if s == "" || s[0] == '?' || s[0] == '#' then "" else [s[0]] + BeforeQuery(s[1..])
  }

  /** The configured directory without slashes at its end, and one slash. */
  function Marker(directory: string): string {
    AccountPaths.DropTrailing(directory, AccountPaths.IsSlash) + "/"
  }

  /** What the drive backend deletes for a stored URL: everything from the first marker to the query. */
  function KeyOf(directory: string, stored: string): Option<string> {
    var i := IndexOf(stored, Marker(directory));
    if stored == "" || i.None? || i.value > |stored| then None else Some(BeforeQuery(stored[i.value..]))
  }

  /** `buildKey`; `name` is the account id, the drawn part and the extension. */
  function BuildKey(directory: string, name: string): string {
    directory + "/" + name
  }

  lemma {:induction false} IndexOfIsFirst(s: string, marker: string)
    ensures var i := IndexOf(s, marker);
      && (i.Some? ==> i.value <= |s| && marker <= s[i.value..])
      && (forall j :: 0 <= j <= |s| && marker <= s[j..] ==> i.Some? && i.value <= j)
  {
    if !(marker <= s) && s != "" {
      IndexOfIsFirst(s[1..], marker);
      forall j | 0 <= j <= |s| && marker <= s[j..]
        ensures IndexOf(s, marker).Some? && IndexOf(s, marker).value <= j
      {
        if j > 0 {
          assert s[1..][j - 1..] == s[j..];
        }
      }
      if IndexOf(s, marker).Some? {
        assert s[1..][IndexOf(s[1..], marker).value..] == s[IndexOf(s, marker).value..];
      }
    }
  }

  lemma {:induction false} QueryIsCut(key: string, tail: string)
    requires '?' !in key && '#' !in key
    requires tail == "" || tail[0] == '?' || tail[0] == '#'
    ensures BeforeQuery(key + tail) == key
  {
    if key == "" {
      assert key + tail == tail;
    } else {
      assert (key + tail)[1..] == key[1..] + tail;
      QueryIsCut(key[1..], tail);
    }
  }

  lemma {:induction false} QueryOnlyShortens(s: string)
    ensures |BeforeQuery(s)| <= |s|
    ensures '?' !in BeforeQuery(s) && '#' !in BeforeQuery(s)
  {
    if s != "" {
      QueryOnlyShortens(s[1..]);
    }
  }

  /** Dropping slashes at the end leaves a text that the directory with its slash begins with. */
  lemma MarkerBeginsKey(directory: string, name: string)
    ensures Marker(directory) <= BuildKey(directory, name)
  {
    var dir := AccountPaths.DropTrailing(directory, AccountPaths.IsSlash);
    AccountPaths.DropTrailingLeaves(directory, AccountPaths.IsSlash);
    var key := BuildKey(directory, name);
    assert dir <= key;
    if |dir| < |directory| {
      assert key[|dir|] == directory[|dir|] && AccountPaths.IsSlash(directory[|dir|]);
    }
    assert key[|dir|] == '/';
    assert key[..|dir| + 1] == dir + "/";
  }

  /**
   * The public URL of a file leads back to its key when the marker does not already occur further
   * left in the URL, for a key without query characters; and only then, unless the base has some.
   */
  lemma PublicUrlNamesItsFileIff(directory: string, base: string, name: string, tail: string)
    requires var key := BuildKey(directory, name); '?' !in key && '#' !in key
    requires tail == "" || tail[0] == '?' || tail[0] == '#'
    ensures var key := BuildKey(directory, name); var url := base + key + tail;
      && ((forall j :: 0 <= j < |base| ==> !(Marker(directory) <= url[j..])) ==> KeyOf(directory, url) == Some(key))
      && ('?' !in base && '#' !in base && KeyOf(directory, url) == Some(key) ==>
            forall j :: 0 <= j < |base| ==> !(Marker(directory) <= url[j..]))
  {
    var key, marker := BuildKey(directory, name), Marker(directory);
    var url := base + key + tail;
    MarkerBeginsKey(directory, name);
    IndexOfIsFirst(url, marker);
    assert url[|base|..] == key + tail;
    assert marker <= url[|base|..];
    QueryIsCut(key, tail);
    var i := IndexOf(url, marker).value;
    if i < |base| && '?' !in base && '#' !in base {
      EarlierMarkerReadsMore(base + key, tail, key, i);
    }
  }

  /** A key read from further left is longer. */
  lemma EarlierMarkerReadsMore(whole: string, tail: string, key: string, i: nat)
    requires i <= |whole| && |whole| - i > |key| && '?' !in whole && '#' !in whole
    requires key == whole[|whole| - |key|..]
    ensures BeforeQuery((whole + tail)[i..]) != key
  {
    var read := (whole + tail)[i..];
    assert read[|key|] == whole[i + |key|];
    if BeforeQuery(read) == key {
      CutLength(read, |key|);
    }
  }

  lemma {:induction false} CutLength(s: string, n: nat)
    requires |BeforeQuery(s)| == n < |s|
    ensures s[n] == '?' || s[n] == '#'
  {
    if n > 0 {
      CutLength(s[1..], n - 1);
    }
  }
}
