/**
 * Dotted resource names and the string operations the catalog applies to them:
 * ResourcePath.getPath, str.split / join, the root name kept in a shelve's
 * `0root` record, the reserved shelve keys, and Python's ordering of strings.
 */
module Names {

  import opened Wrappers

  /** `s.startswith(prefix)`. */
  predicate StartsWith(s: string, prefix: string) {
    prefix <= s
  }

  /** ResourcePath.getPath: extend a (possibly root) path by one more name. */
  function GetPath(base: Option<string>, name: string): (r: string)
    ensures base.None? ==> r == name
    ensures base.Some? ==> StartsWith(r, base.value + ".") && r[|base.value| + 1..] == name
  {
    if base.Some? then base.value + "." + name else name
  }

  /** The name GetPath appended, recovered from the path it built. */
  function LastName(base: Option<string>, path: string): string
    requires base.Some? ==> |path| > |base.value|
  {
    if base.Some? then path[|base.value| + 1..] else path
  }

  lemma GetPathInjective(base: Option<string>, a: string, b: string)
    requires GetPath(base, a) == GetPath(base, b)
    ensures a == b
  {
    assert LastName(base, GetPath(base, a)) == a;
    assert LastName(base, GetPath(base, b)) == b;
  }

  /** `s.split(c)` for a one-character separator: every piece, empty ones included. */
  function Split(s: string, c: char): (r: seq<string>)
    ensures |r| >= 1
    ensures forall i :: 0 <= i < |r| ==> c !in r[i]
    decreases |s|
  {
    if |s| == 0 then [""]
    else
      var rest := Split(s[1..], c);
      if s[0] == c then [""] + rest else [[s[0]] + rest[0]] + rest[1..]
  }

  /** `c.join(pieces)`. */
  function Join(pieces: seq<string>, c: char): string
    requires |pieces| >= 1
  {
    if |pieces| == 1 then pieces[0] else pieces[0] + [c] + Join(pieces[1..], c)
  }

  /** Joining the pieces of a split gives the string back. */
  lemma {:induction false} JoinSplit(s: string, c: char)
    ensures Join(Split(s, c), c) == s
    decreases |s|
  {
    if |s| > 0 {
      JoinSplit(s[1..], c);
      var rest := Split(s[1..], c);
      if s[0] == c {
        assert Split(s, c) == [""] + rest;
        assert s == [c] + s[1..];
      } else if |rest| == 1 {
        assert s == [s[0]] + s[1..];
      } else {
        var r := Split(s, c);
        assert r[1..] == rest[1..];
        assert Join(r, c) == [s[0]] + rest[0] + [c] + Join(rest[1..], c);
        assert s == [s[0]] + s[1..];
      }
    }
  }

  /** Splitting a join of separator-free pieces gives the pieces back. */
  lemma {:induction false} SplitJoin(pieces: seq<string>, c: char)
    requires |pieces| >= 1
    requires forall i :: 0 <= i < |pieces| ==> c !in pieces[i]
    ensures Split(Join(pieces, c), c) == pieces
    decreases |pieces|, |pieces[0]|
  {
    if |pieces| == 1 {
      SplitFree(pieces[0], c);
    } else if |pieces[0]| == 0 {
      SplitJoin(pieces[1..], c);
      var j := Join(pieces, c);
      assert j == [c] + Join(pieces[1..], c);
      assert j[1..] == Join(pieces[1..], c);
      assert pieces == [""] + pieces[1..];
    } else {
      var p0 := pieces[0];
      var shorter := [p0[1..]] + pieces[1..];
      assert shorter[1..] == pieces[1..];
      SplitJoin(shorter, c);
      var j := Join(pieces, c);
      assert j == [p0[0]] + Join(shorter, c);
      assert j[1..] == Join(shorter, c);
      assert p0 == [p0[0]] + p0[1..];
    }
  }

  lemma {:induction false} SplitFree(s: string, c: char)
    requires c !in s
    ensures Split(s, c) == [s]
    decreases |s|
  {
    if |s| > 0 {
      assert c !in s[1..];
      SplitFree(s[1..], c);
      assert s == [s[0]] + s[1..];
    }
  }

  /** The first piece of a split is everything before the first separator. */
  lemma {:induction false} SplitFirst(a: string, rest: string, c: char)
    requires c !in a
    ensures Split(a + [c] + rest, c)[0] == a
    decreases |a|
  {
    var s := a + [c] + rest;
    if |a| == 0 {
      assert s[0] == c;
    } else {
      assert s[0] == a[0] && s[1..] == a[1..] + [c] + rest;
      SplitFirst(a[1..], rest, c);
      assert a == [a[0]] + a[1..];
    }
  }

  /** `id.split('.')[0]`: the root of the dotted name space a resource ID lives under. */
  function RootName(id: string): (r: string)
    ensures StartsWith(id, r) && '.' !in r
    ensures r == id || StartsWith(id, r + ".")
  {
    RootNameIsPrefix(id);
    Split(id, '.')[0]
  }

  lemma {:induction false} RootNameIsPrefix(id: string)
    ensures var r := Split(id, '.')[0]; StartsWith(id, r) && (r == id || StartsWith(id, r + "."))
    decreases |id|
  {
    if |id| > 0 {
      RootNameIsPrefix(id[1..]);
      assert id == [id[0]] + id[1..];
    }
  }

  /** A path built by GetPath lives under the root of its base path. */
  lemma {:induction false} RootOfExtendedPath(base: string, name: string)
    ensures RootName(GetPath(Some(base), name)) == RootName(base)
    decreases |base|
  {
    var p := GetPath(Some(base), name);
    if |base| == 0 {
      assert p == "." + name;
      assert p[1..] == name;
    } else {
      RootOfExtendedPath(base[1..], name);
      assert p[1..] == GetPath(Some(base[1..]), name);
    }
  }

  /** Reserved shelve keys: a resource's info record and its schema record. */
  const DocPrefix := "__doc__."
  const SchemaPrefix := "SCHEMA."
  const RootKey := "0root"
  const VersionKey := "0version"

  function DocKey(id: string): string { DocPrefix + id }
  function SchemaKey(id: string): string { SchemaPrefix + id }

  /** A key the shelve writes for its own bookkeeping rather than for a resource. */
  predicate Reserved(k: string) {
    StartsWith(k, DocPrefix) || StartsWith(k, SchemaPrefix) || k == RootKey || k == VersionKey
  }

  lemma KeysInjective(a: string, b: string)
    ensures DocKey(a) == DocKey(b) ==> a == b
    ensures SchemaKey(a) == SchemaKey(b) ==> a == b
  {
    assert DocKey(a)[|DocPrefix|..] == a && DocKey(b)[|DocPrefix|..] == b;
    assert SchemaKey(a)[|SchemaPrefix|..] == a && SchemaKey(b)[|SchemaPrefix|..] == b;
  }

  lemma ReservedKeys(id: string)
    ensures Reserved(DocKey(id)) && Reserved(SchemaKey(id)) && Reserved(RootKey)
  {
    assert StartsWith(DocKey(id), DocPrefix);
    assert StartsWith(SchemaKey(id), SchemaPrefix);
  }

  /** A schema attribute that names a rule rather than a real attribute (`attr.startswith('-')`). */
  predicate IsRuleAttr(attr: string) {
    StartsWith(attr, "-")
  }

  /** Python 2 `str.isalpha()` of one byte in the C locale. */
  predicate IsAlpha(c: char) {
    ('A' <= c <= 'Z') || ('a' <= c <= 'z')
  }

  /** Python's `<` on strings: lexicographic by character code. */
  predicate LexLess(a: string, b: string)
    decreases |a|
  {
    if |a| == 0 then |b| > 0
    else if |b| == 0 then false
    else if a[0] != b[0] then a[0] < b[0]
    else LexLess(a[1..], b[1..])
  }

  lemma {:induction false} LexLessIrreflexive(a: string)
    ensures !LexLess(a, a)
    decreases |a|
  {
    if |a| > 0 { LexLessIrreflexive(a[1..]); }
  }

  lemma {:induction false} LexLessTransitive(a: string, b: string, c: string)
    requires LexLess(a, b) && LexLess(b, c)
    ensures LexLess(a, c)
    decreases |a|
  {
    if |a| > 0 && |b| > 0 && |c| > 0 && a[0] == b[0] && b[0] == c[0] {
      LexLessTransitive(a[1..], b[1..], c[1..]);
    }
  }

  lemma {:induction false} LexLessTotal(a: string, b: string)
    requires a != b
    ensures LexLess(a, b) || LexLess(b, a)
    decreases |a|
  {
    if |a| > 0 && |b| > 0 && a[0] == b[0] {
      assert a == [a[0]] + a[1..] && b == [b[0]] + b[1..];
      LexLessTotal(a[1..], b[1..]);
    }
  }

  lemma {:induction false} LexLessAsymmetric(a: string, b: string)
    requires LexLess(a, b)
    ensures !LexLess(b, a)
  {
    if LexLess(b, a) {
      LexLessTransitive(a, b, a);
      LexLessIrreflexive(a);
    }
  }
}
