/**
  The keys under which src/thumbnailer.cpp caches images: fields joined by NUL characters.
  Strings stand for the bytes of std::string.
 */
module CacheKeys {
  import opened Scaling

  const NUL: string := "\0"

  // ---- Numbers ----

  /** std::to_string. */
  function Decimal(n: int): string {
    if n < 0 then "-" + Digits(-n) else Digits(n)
  }

  function Digits(n: nat): string {
    if n < 10 then [Digit(n)] else Digits(n / 10) + [Digit(n % 10)]
  }

  function Digit(d: nat): char
    requires d < 10
  {
    "0123456789"[d]
  }

  /** The number that a string of digits denotes. */
  function Value(s: string): nat {
    if s == [] then 0 else 10 * Value(s[..|s| - 1]) + DigitValue(s[|s| - 1])
  }

  function DigitValue(c: char): nat {
    if '0' <= c <= '9' then (c - '0') as nat else 0
  }

  lemma {:induction false} DigitsAreDigits(n: nat)
    ensures Digits(n) != [] && forall i :: 0 <= i < |Digits(n)| ==> '0' <= Digits(n)[i] <= '9'
  {
    if n >= 10 {
      DigitsAreDigits(n / 10);
    }
  }

  lemma {:induction false} ValueOfDigits(n: nat)
    ensures Value(Digits(n)) == n
  {
    if n < 10 {
      assert Digits(n)[..0] == [];
    } else {
      ValueOfDigits(n / 10);
      assert Digits(n)[..|Digits(n)| - 1] == Digits(n / 10);
    }
  }

  /** Different numbers are written differently, without NULs or dots. */
  lemma DecimalIsInjective(m: int, n: int)
    ensures Decimal(m) == Decimal(n) ==> m == n
    ensures Free(Decimal(n), '\0') && Free(Decimal(n), '.')
  {
    var a, b := if m < 0 then -m else m, if n < 0 then -n else n;
    DigitsAreDigits(a);
    DigitsAreDigits(b);
    ValueOfDigits(a);
    ValueOfDigits(b);
    if Decimal(m) == Decimal(n) {
      assert Decimal(m)[0] == Decimal(n)[0];
      assert m < 0 ==> Decimal(m)[1..] == Digits(a);
      assert n < 0 ==> Decimal(n)[1..] == Digits(b);
    }
  }

  // ---- Joining ----

  predicate Free(s: string, c: char) {
    forall i :: 0 <= i < |s| ==> s[i] != c
  }

  /** What follows the last separator, and what precedes it, can be told from the whole. */
  lemma LastFieldIsUnique(a: string, x: string, b: string, y: string, c: char)
    requires Free(x, c) && Free(y, c) && a + [c] + x == b + [c] + y
    ensures a == b && x == y
  {
    var s := a + [c] + x;
    assert s[|a|] == c && s[|b|] == c;
    assert forall k :: |a| < k < |s| ==> s[k] == x[k - |a| - 1];
    assert forall k :: |b| < k < |s| ==> s[k] == y[k - |b| - 1];
    assert a == s[..|a|] && b == s[..|b|];
    assert x == s[|a| + 1..] && y == s[|b| + 1..];
  }

  /** Fields joined by NULs. */
  function Join(fields: seq<string>): string
    requires fields != []
  {
    if |fields| == 1 then fields[0] else Join(fields[..|fields| - 1]) + NUL + fields[|fields| - 1]
  }

  ghost predicate AllFree(fields: seq<string>) {
    forall i :: 0 <= i < |fields| ==> Free(fields[i], '\0')
  }

  function Nuls(s: string): nat {
    if s == [] then 0 else Nuls(s[..|s| - 1]) + (if s[|s| - 1] == '\0' then 1 else 0)
  }

  lemma {:induction false} NulsOfSum(a: string, b: string)
    ensures Nuls(a + b) == Nuls(a) + Nuls(b)
  {
    if b == [] {
      assert a + b == a;
    } else {
      NulsOfSum(a, b[..|b| - 1]);
      assert (a + b)[..|a + b| - 1] == a + b[..|b| - 1];
    }
  }

  lemma {:induction false} NulsOfFree(s: string)
    ensures Free(s, '\0') <==> Nuls(s) == 0
  {
    if s != [] {
      NulsOfFree(s[..|s| - 1]);
    }
  }

  lemma {:induction false} NulsOfJoin(fields: seq<string>)
    requires fields != [] && AllFree(fields)
    ensures Nuls(Join(fields)) == |fields| - 1
  {
    var front, last := fields[..|fields| - 1], fields[|fields| - 1];
    NulsOfFree(last);
    if |fields| > 1 {
      NulsOfJoin(front);
      NulsOfSum(Join(front) + NUL, last);
      NulsOfSum(Join(front), NUL);
      assert NUL[..0] == [];
    }
  }

  /** From NUL-free fields, the fields can be read back: equal keys have equal fields. */
  lemma {:induction false} JoinIsInjective(f: seq<string>, g: seq<string>)
    requires f != [] && g != [] && AllFree(f) && AllFree(g) && Join(f) == Join(g)
    ensures f == g
    decreases |f|
  {
    NulsOfJoin(f);
    NulsOfJoin(g);
    if |f| == 1 {
      assert f == [f[0]] && g == [g[0]];
    } else {
      var front, front' := f[..|f| - 1], g[..|g| - 1];
      LastFieldIsUnique(Join(front), f[|f| - 1], Join(front'), g[|g| - 1], '\0');
      JoinIsInjective(front, front');
      assert f == front + [f[|f| - 1]] && g == front' + [g[|g| - 1]];
    }
  }

  // ---- Requests ----

  datatype Time = Time(seconds: int, nanoseconds: int)

  datatype Subject =
    | LocalFile(path: string, inode: nat, modified: Time, changed: Time)
    | Album(artist: string, album: string)
    | Artist(artist: string, album: string)

  function Stamp(t: Time): string {
    Decimal(t.seconds) + "." + Decimal(t.nanoseconds)
  }

  /** The key that the constructor of the request builds. */
  function Key(s: Subject): string {
    match s
    case LocalFile(path, inode, modified, changed) =>
      path + NUL + Decimal(inode) + NUL + Stamp(modified) + NUL + Stamp(changed)
    case Album(artist, album) => artist + NUL + album + NUL + "album"
    case Artist(artist, album) => artist + NUL + album + NUL + "artist"
  }

  function Fields(s: Subject): seq<string> {
    match s
    case LocalFile(path, inode, modified, changed) => [path, Decimal(inode), Stamp(modified), Stamp(changed)]
    case Album(artist, album) => [artist, album, "album"]
    case Artist(artist, album) => [artist, album, "artist"]
  }

  /**
    No NUL in the names. A path never has one, and D-Bus strings cannot carry one; the artist
    and album given to the C++ interface of the thumbnailer can.
   */
  ghost predicate NulFree(s: Subject) {
    match s
    case LocalFile(path, _, _, _) => Free(path, '\0')
    case Album(artist, album) => Free(artist, '\0') && Free(album, '\0')
    case Artist(artist, album) => Free(artist, '\0') && Free(album, '\0')
  }

  lemma JoinThree(a: string, b: string, c: string)
    ensures Join([a, b, c]) == a + NUL + b + NUL + c
  {
    assert [a, b, c][..2] == [a, b] && [a, b][..1] == [a];
    assert Join([a]) == a && Join([a, b]) == a + NUL + b;
  }

  lemma JoinFour(a: string, b: string, c: string, d: string)
    ensures Join([a, b, c, d]) == a + NUL + b + NUL + c + NUL + d
  {
    assert [a, b, c, d][..3] == [a, b, c];
    JoinThree(a, b, c);
  }

  lemma KeyIsJoin(s: Subject)
    ensures Key(s) == Join(Fields(s))
  {
    match s
    case LocalFile(path, inode, modified, changed) => JoinFour(path, Decimal(inode), Stamp(modified), Stamp(changed));
    case Album(artist, album) => JoinThree(artist, album, "album");
    case Artist(artist, album) => JoinThree(artist, album, "artist");
  }

  lemma StampIsInjective(s: Time, t: Time)
    ensures Stamp(s) == Stamp(t) ==> s == t
    ensures Free(Stamp(s), '\0')
  {
    DecimalIsInjective(s.seconds, t.seconds);
    DecimalIsInjective(t.seconds, s.seconds);
    DecimalIsInjective(s.nanoseconds, t.nanoseconds);
    DecimalIsInjective(t.nanoseconds, s.nanoseconds);
    if Stamp(s) == Stamp(t) {
      LastFieldIsUnique(Decimal(s.seconds), Decimal(s.nanoseconds), Decimal(t.seconds), Decimal(t.nanoseconds), '.');
    }
  }

  lemma FieldsAreFree(s: Subject)
    requires NulFree(s)
    ensures AllFree(Fields(s))
  {
    match s
    case LocalFile(path, inode, modified, changed) =>
      DecimalIsInjective(0, inode);
      StampIsInjective(modified, modified);
      StampIsInjective(changed, changed);
    case Album(_, _) =>
    case Artist(_, _) =>
  }

  /** Two subjects share a key only if they are the same: kind, names, file identity and times. */
  lemma KeyIsInjective(a: Subject, b: Subject)
    requires NulFree(a) && NulFree(b) && Key(a) == Key(b)
    ensures a == b
  {
    KeyIsJoin(a);
    KeyIsJoin(b);
    FieldsAreFree(a);
    FieldsAreFree(b);
    JoinIsInjective(Fields(a), Fields(b));
    assert |Fields(a)| == |Fields(b)|;
    assert Fields(a)[0] == Fields(b)[0] && Fields(a)[1] == Fields(b)[1] && Fields(a)[2] == Fields(b)[2];
    if a.LocalFile? {
      assert Fields(a)[3] == Fields(b)[3];
      DecimalIsInjective(a.inode, b.inode);
      StampIsInjective(a.modified, b.modified);
      StampIsInjective(a.changed, b.changed);
    } else {
      assert "album"[1] != "artist"[1];
    }
  }

  /** A subject that can exist: no path has a NUL. */
  ghost predicate Possible(s: Subject) {
    s.LocalFile? ==> Free(s.path, '\0')
  }

  ghost predicate SharesKey(s: Subject) {
    exists t :: Possible(t) && t != s && Key(t) == Key(s)
  }

  /** Exactly the albums and artists with a NUL in a name share their key with another subject. */
  lemma SharesKeyIff(s: Subject)
    requires Possible(s)
    ensures SharesKey(s) <==> !s.LocalFile? && !(Free(s.artist, '\0') && Free(s.album, '\0'))
  {
    if NulFree(s) {
      forall t | Possible(t) && Key(t) == Key(s)
        ensures t == s
      {
        SameKeyIsNulFree(s, t);
        KeyIsInjective(t, s);
      }
    } else {
      Resplit(s);
    }
  }

  /** Key and kind determine the number of NULs in the names, so they are all free or none is. */
  lemma SameKeyIsNulFree(s: Subject, t: Subject)
    requires NulFree(s) && Possible(t) && Key(t) == Key(s)
    ensures NulFree(t)
  {
    NulsOfKey(s);
    NulsOfKey(t);
    if !t.LocalFile? {
      NulsOfFree(t.artist);
      NulsOfFree(t.album);
      if s.LocalFile? {
        LastFields(s, t);
      }
    }
  }

  /** A time stamp ends in a digit, so it is not the last field of an album or artist. */
  lemma LastFields(s: Subject, t: Subject)
    requires s.LocalFile? && !t.LocalFile?
    ensures Key(s) != Key(t)
  {
    var n := s.changed.nanoseconds;
    DigitsAreDigits(if n < 0 then -n else n);
    var stamp := Stamp(s.changed);
    assert '0' <= stamp[|stamp| - 1] <= '9';
    assert Key(s)[|Key(s)| - 1] == stamp[|stamp| - 1];
    var kind := if t.Album? then "album" else "artist";
    assert Key(t)[|Key(t)| - 1] == kind[|kind| - 1];
  }

  lemma NulsOfKey(s: Subject)
    ensures Nuls(Key(s)) == if s.LocalFile? then Nuls(s.path) + 3 else Nuls(s.artist) + Nuls(s.album) + 2
    ensures s.LocalFile? && Free(s.path, '\0') ==> Nuls(s.path) == 0
    ensures !s.LocalFile? && NulFree(s) ==> Nuls(s.artist) == 0 && Nuls(s.album) == 0
  {
    match s
    case LocalFile(path, inode, modified, changed) =>
      DecimalIsInjective(0, inode);
      StampIsInjective(modified, modified);
      StampIsInjective(changed, changed);
      NulsOfFree(path);
      NulsOfFree(Decimal(inode));
      NulsOfFree(Stamp(modified));
      NulsOfFree(Stamp(changed));
      NulsOfThree(path, Decimal(inode), Stamp(modified));
      NulsAfter(path + NUL + Decimal(inode) + NUL + Stamp(modified), Stamp(changed));
    case Album(artist, album) =>
      NulsOfFree(artist);
      NulsOfFree(album);
      NulsOfThree(artist, album, "album");
      NulsOfFree("album");
    case Artist(artist, album) =>
      NulsOfFree(artist);
      NulsOfFree(album);
      NulsOfThree(artist, album, "artist");
      NulsOfFree("artist");
  }

  lemma NulsAfter(a: string, b: string)
    ensures Nuls(a + NUL + b) == Nuls(a) + 1 + Nuls(b)
  {
    NulsOfSum(a + NUL, b);
    NulsOfSum(a, NUL);
    assert NUL[..0] == [];
  }

  lemma NulsOfThree(a: string, b: string, c: string)
    ensures Nuls(a + NUL + b + NUL + c) == Nuls(a) + Nuls(b) + Nuls(c) + 2
  {
    NulsAfter(a + NUL + b, c);
    NulsAfter(a, b);
  }

  /** A NUL in a name can be taken for the separator instead. */
  lemma ResplitNames(a: string, b: string) returns (a': string, b': string)
    requires !(Free(a, '\0') && Free(b, '\0'))
    ensures a' != a && a' + NUL + b' == a + NUL + b
  {
    if i :| 0 <= i < |a| && a[i] == '\0' {
      a', b' := a[..i], a[i + 1..] + NUL + b;
      assert a == a' + NUL + a[i + 1..];
    } else {
      var i :| 0 <= i < |b| && b[i] == '\0';
      a', b' := a + NUL + b[..i], b[i + 1..];
      assert b == b[..i] + NUL + b';
    }
  }

  lemma Resplit(s: Subject)
    requires !s.LocalFile? && !(Free(s.artist, '\0') && Free(s.album, '\0'))
    ensures SharesKey(s)
  {
    var artist, album := ResplitNames(s.artist, s.album);
    var kind := if s.Album? then "album" else "artist";
    var t := if s.Album? then Album(artist, album) else Artist(artist, album);
    assert Key(t) == (artist + NUL + album) + NUL + kind;
    assert Key(s) == (s.artist + NUL + s.album) + NUL + kind;
    assert t != s && Possible(t);
  }

  // ---- Sized keys and reserved keys ----

  /** The key of one size of an image, as built by thumbnail(). */
  function SizedKey(key: string, target: Size): string {
    key + NUL + Decimal(target.width) + NUL + Decimal(target.height)
  }

  /** Whatever the key contains, a sized key tells the key and the size. */
  lemma SizedKeyIsInjective(key: string, target: Size, key': string, target': Size)
    requires SizedKey(key, target) == SizedKey(key', target')
    ensures key == key' && target == target'
  {
    DecimalIsInjective(target.width, target'.width);
    DecimalIsInjective(target'.width, target.width);
    DecimalIsInjective(target.height, target'.height);
    DecimalIsInjective(target'.height, target.height);
    LastFieldIsUnique(key + NUL + Decimal(target.width), Decimal(target.height),
                      key' + NUL + Decimal(target'.width), Decimal(target'.height), '\0');
    LastFieldIsUnique(key, Decimal(target.width), key', Decimal(target'.width), '\0');
  }

  const LAST_NETWORK_FAIL_TIME_KEY := "/*** LAST_NETWORK_FAIL_TIME ***/"
  const BACKOFF_PERIOD_KEY := "/*** BACKOFF_PERIOD ***/"

  /** What the thumbnailer saves in the failure cache is never taken for a failed request. */
  lemma ReservedKeys(s: Subject)
    ensures Key(s) != LAST_NETWORK_FAIL_TIME_KEY && Key(s) != BACKOFF_PERIOD_KEY
    ensures LAST_NETWORK_FAIL_TIME_KEY != BACKOFF_PERIOD_KEY
  {
    HasNul(s);
    FailTimeKeyIsFree();
    BackoffPeriodKeyIsFree();
    hide Key;
  }

  lemma FailTimeKeyIsFree()
    ensures Free(LAST_NETWORK_FAIL_TIME_KEY, '\0') && |LAST_NETWORK_FAIL_TIME_KEY| == 32
  {
  }

  lemma BackoffPeriodKeyIsFree()
    ensures Free(BACKOFF_PERIOD_KEY, '\0') && |BACKOFF_PERIOD_KEY| == 24
  {
  }

  lemma HasNul(s: Subject)
    ensures !Free(Key(s), '\0')
  {
    match s
    case LocalFile(path, _, _, _) => assert Key(s)[|path|] == '\0';
    case Album(artist, _) => assert Key(s)[|artist|] == '\0';
    case Artist(artist, _) => assert Key(s)[|artist|] == '\0';
  }
}
