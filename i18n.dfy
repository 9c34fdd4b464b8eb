/** The dashboard's translation lookup (frontend/src/i18n/index.js). The
    message table maps each locale to a nested table whose leaves are
    strings; a key such as `common.login` names a path through it. The
    browser's `localStorage` entry for the locale is a field of the
    lookup object. */
module I18n {
  import opened Wrappers
  import Text

  /** A node of the message table: a string, or a table of named
      children. */
  datatype Msg = Str(s: string) | Table(entries: map<string, Msg>)

  const DefaultLocale := "zh"
  const KeySeparator := '.'

  /** The node reached from `m` by following `path`, `None` when a segment
      is missing or a string is met before the path ends. */
  function Resolve(m: Msg, path: seq<string>): Option<Msg>
    decreases |path|
  {
    if path == [] then Some(m)
    else match m
      case Str(_) => None
      case Table(e) => if path[0] in e then Resolve(e[path[0]], path[1..]) else None
  }

  /** `Resolve` from a node that may be missing. */
  function ResolveFrom(v: Option<Msg>, path: seq<string>): Option<Msg> {
    match v
    case None => None
    case Some(m) => Resolve(m, path)
  }

  /** What `t(key)` returns under `locale`: the node the key's path leads
      to, unless the path leads nowhere or to an empty string, in which
      case the key itself. */
  function Translate(messages: map<string, Msg>, locale: string, key: string): (r: Msg)
    ensures locale !in messages ==> r == Str(key)
    ensures r != Str(key) ==>
      locale in messages && Resolve(messages[locale], Text.Split(key, KeySeparator)) == Some(r) && r != Str([])
  {
    var root := if locale in messages then Some(messages[locale]) else None;
    match ResolveFrom(root, Text.Split(key, KeySeparator))
    case None => Str(key)
    case Some(Str(s)) => if s == [] then Str(key) else Str(s)
    case Some(t) => t
  }

  /** Following `p` and then `q` is following `p + q`. */
  lemma {:induction false} ResolveAppend(m: Msg, p: seq<string>, q: seq<string>)
    ensures Resolve(m, p + q) == ResolveFrom(Resolve(m, p), q)
    decreases |p|
  {
    if p == [] {
      assert p + q == q;
    } else {
      assert (p + q)[1..] == p[1..] + q;
      match m
      case Str(_) =>
      case Table(e) =>
        if p[0] in e {
          ResolveAppend(e[p[0]], p[1..], q);
        }
    }
  }

  /** A segment missing from the table reached by the path before it
      makes the whole path lead nowhere. */
  lemma ResolveMissingSegment(m: Msg, path: seq<string>, i: nat, e: map<string, Msg>)
    requires i < |path|
    requires Resolve(m, path[..i]) == Some(Table(e))
    requires path[i] !in e
    ensures Resolve(m, path) == None
  {
    ResolveAppend(m, path[..i], path[i..]);
    assert path[..i] + path[i..] == path;
  }

  /** Meeting a string before the path ends makes it lead nowhere. */
  lemma ResolveThroughString(m: Msg, path: seq<string>, i: nat, s: string)
    requires i < |path|
    requires Resolve(m, path[..i]) == Some(Str(s))
    ensures Resolve(m, path) == None
  {
    ResolveAppend(m, path[..i], path[i..]);
    assert path[..i] + path[i..] == path;
  }

  /** The key written for a path: its segments joined with dots. */
  function KeyOf(path: seq<string>): string {
    Text.Join(path, KeySeparator)
  }

  /** Reading a key back gives its path, when no segment holds a dot. */
  lemma KeyOfPath(path: seq<string>)
    requires |path| > 0
    requires forall i :: 0 <= i < |path| ==> KeySeparator !in path[i]
    ensures Text.Split(KeyOf(path), KeySeparator) == path
  {
    Text.SplitJoin(path, KeySeparator);
  }

  /** A key whose path ends on a non-empty string translates to it. */
  lemma TranslateFound(messages: map<string, Msg>, locale: string, path: seq<string>, s: string)
    requires |path| > 0
    requires forall i :: 0 <= i < |path| ==> KeySeparator !in path[i]
    requires locale in messages && Resolve(messages[locale], path) == Some(Str(s))
    requires s != []
    ensures Translate(messages, locale, KeyOf(path)) == Str(s)
  {
    KeyOfPath(path);
  }

  /** A key whose path ends on a sub-table translates to that table, not
      to the key. */
  lemma TranslateSubTable(messages: map<string, Msg>, locale: string, path: seq<string>, e: map<string, Msg>)
    requires |path| > 0
    requires forall i :: 0 <= i < |path| ==> KeySeparator !in path[i]
    requires locale in messages && Resolve(messages[locale], path) == Some(Table(e))
    ensures Translate(messages, locale, KeyOf(path)) == Table(e)
  {
    KeyOfPath(path);
  }

  /** A key with a segment missing from the table reached before it
      translates to itself. */
  lemma TranslateMissingSegment(messages: map<string, Msg>, locale: string, key: string, i: nat, e: map<string, Msg>)
    requires locale in messages
    requires var path := Text.Split(key, KeySeparator);
      i < |path| && Resolve(messages[locale], path[..i]) == Some(Table(e)) && path[i] !in e
    ensures Translate(messages, locale, key) == Str(key)
  {
    ResolveMissingSegment(messages[locale], Text.Split(key, KeySeparator), i, e);
  }

  /** A key whose path meets a string before its last segment translates
      to itself. */
  lemma TranslateThroughString(messages: map<string, Msg>, locale: string, key: string, i: nat, s: string)
    requires locale in messages
    requires var path := Text.Split(key, KeySeparator);
      i < |path| && Resolve(messages[locale], path[..i]) == Some(Str(s))
    ensures Translate(messages, locale, key) == Str(key)
  {
    ResolveThroughString(messages[locale], Text.Split(key, KeySeparator), i, s);
  }

  /** The locale in force at start-up: the stored one, unless missing or
      empty. */
  function InitialLocale(stored: Option<string>): (l: string)
    ensures stored.Some? && stored.value != [] ==> l == stored.value
    ensures stored.None? || stored.value == [] ==> l == DefaultLocale
  {
    if stored.Some? && stored.value != [] then stored.value else DefaultLocale
  }

  class Translator {
    /** The message table. */
    const messages: map<string, Msg>
    /** `currentLocale`. */
    var locale: string
    /** The `locale` entry of `localStorage`. */
    var saved: Option<string>

    constructor (messages: map<string, Msg>, stored: Option<string>)
      ensures this.messages == messages
      ensures locale == InitialLocale(stored) && saved == stored
    {
      this.messages := messages;
      locale := InitialLocale(stored);
      saved := stored;
    }

    /** setLocale and the `locale` setter: the locale in force and the
        stored one become `l`; lookups then use `messages[l]`. */
    method SetLocale(l: string)
      modifies this`locale, this`saved
      ensures locale == l && saved == Some(l)
    {
      locale := l;
      saved := Some(l);
    }

    /** t: walks the key's segments from the current locale's table,
        giving up with the key when the cursor is not a table; the end
        point is returned unless missing or an empty string. */
    method T(key: string) returns (r: Msg)
      ensures r == Translate(messages, locale, key)
    {
      var keys := Text.Split(key, KeySeparator);
      var value: Option<Msg> := if locale in messages then Some(messages[locale]) else None;
      ghost var root := value;
      var i := 0;
      while i < |keys|
        invariant 0 <= i <= |keys|
        invariant ResolveFrom(root, keys) == ResolveFrom(value, keys[i..])
      {
        if value.Some? && value.value.Table? {
          var e := value.value.entries;
          assert keys[i..] == [keys[i]] + keys[i + 1..];
          value := if keys[i] in e then Some(e[keys[i]]) else None;
        } else {
          return Str(key);
        }
        i := i + 1;
      }
      assert keys[i..] == [];
      match value
      case None => r := Str(key);
      case Some(Str(s)) => r := if s == [] then Str(key) else Str(s);
      case Some(t) => r := t;
    }
  }
}
