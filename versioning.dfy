/** cmd/git.go: `condo git`. It maps tagged commit hashes to their tag
    names, walks the commit log, reads the conventional-commit header of
    every message, and keeps the greatest version among the tags of the
    commits whose header matches.

    The version type, its strict parser and its precedence order come from
    a library; they are parameters here: `parse` is the strict parser and
    `less` the precedence, which must be a strict weak order. */
module Versioning {
  import opened Shell
  import Text

  /** A reference of the repository: its full name and the hash it names. */
  datatype Ref = Ref(name: string, hash: string)

  /** A commit of the log: its hash and its full message. */
  datatype LogEntry = LogEntry(hash: string, message: string)

  // ---- The tag-ref matcher `^refs/tags/(.+)$` ----

  const TagPrefix := "refs/tags/"

  /** The tag name of a reference: what follows `refs/tags/`, which must be
      non-empty and, as `.` and an unanchored-line `$` demand, hold no line
      break. */
  function TagOf(name: string): (tag: Option<string>)
    ensures tag.Some? <==>
      TagPrefix <= name && |name| > |TagPrefix| && '\n' !in name[|TagPrefix|..]
    ensures tag.Some? ==> name == TagPrefix + tag.value && tag.value != ""
  {
    if TagPrefix <= name && |name| > |TagPrefix| && '\n' !in name[|TagPrefix|..]
    then Some(name[|TagPrefix|..])
    else None
  }

  /** The tag map after visiting `refs` in order: a later ref with the same
      hash overwrites an earlier one. */
  function TagMap(refs: seq<Ref>): map<string, string>
    decreases |refs|
  {
    if refs == [] then map[]
    else
      var last := refs[|refs| - 1];
      var before := TagMap(refs[..|refs| - 1]);
      match TagOf(last.name)
      case None => before
      case Some(t) => before[last.hash := t]
  }

  /** A hash is in the map exactly when some tag ref names it, and then it
      maps to the tag of the LAST such ref. */
  lemma {:induction false} TagMapIsLastTag(refs: seq<Ref>, hash: string)
    ensures hash in TagMap(refs) <==>
      exists i :: 0 <= i < |refs| && refs[i].hash == hash && TagOf(refs[i].name).Some?
    ensures hash in TagMap(refs) ==>
      exists i :: 0 <= i < |refs| && refs[i].hash == hash && TagOf(refs[i].name) == Some(TagMap(refs)[hash]) &&
        forall j :: i < j < |refs| ==> refs[j].hash != hash || TagOf(refs[j].name).None?
    decreases |refs|
  {
    if refs != [] {
      var n := |refs| - 1;
      var before := refs[..n];
      TagMapIsLastTag(before, hash);
      assert forall i :: 0 <= i < n ==> before[i] == refs[i];
      if refs[n].hash == hash && TagOf(refs[n].name).Some? {
        assert TagMap(refs)[hash] == TagOf(refs[n].name).value;
      } else if hash in TagMap(refs) {
        var i :| 0 <= i < n && before[i].hash == hash && TagOf(before[i].name) == Some(TagMap(before)[hash]) &&
          forall j :: i < j < n ==> before[j].hash != hash || TagOf(before[j].name).None?;
        assert refs[i] == before[i];
      }
    }
  }

  /** Every value in the map is a non-empty tag name. */
  lemma {:induction false} TagMapValuesNonEmpty(refs: seq<Ref>, hash: string)
    requires hash in TagMap(refs)
    ensures TagMap(refs)[hash] != ""
  {
    TagMapIsLastTag(refs, hash);
  }

  /** The `ForEach` over the tag refs, filling the map in place. */
  method BuildTags(refs: seq<Ref>) returns (tags: map<string, string>)
    ensures tags == TagMap(refs)
  {
    tags := map[];
    var i := 0;
    while i < |refs|
      invariant 0 <= i <= |refs|
      invariant tags == TagMap(refs[..i])
    {
      assert refs[..i + 1][..i] == refs[..i];
      var tag := TagOf(refs[i].name);
      if tag.Some? {
        tags := tags[refs[i].hash := tag.value];
      }
      i := i + 1;
    }
    assert refs[..i] == refs;
  }

  /** Go's map index: the empty string for a missing key. */
  function LookupTag(tags: map<string, string>, hash: string): string
  {
    if hash in tags then tags[hash] else ""
  }

  // ---- The header matcher `^(\w*)(?:\(([\w$.\-* ]*)\))?: (.*)` ----

  /** The three capture groups: type, scope ("" when the group is absent)
      and description. */
  datatype Header = Header(kind: string, scope: string, desc: string)

  /** `\w`: ASCII letters, digits and the underscore. */
  predicate IsWordChar(c: char)
  {
    ('0' <= c <= '9') || ('A' <= c <= 'Z') || ('a' <= c <= 'z') || c == '_'
  }

  /** The scope class `[\w$.\-* ]`. */
  predicate IsScopeChar(c: char)
  {
    IsWordChar(c) || c == '$' || c == '.' || c == '-' || c == '*' || c == ' '
  }

  predicate AllWord(s: string)
  {
    forall j :: 0 <= j < |s| ==> IsWordChar(s[j])
  }

  predicate AllScope(s: string)
  {
    forall j :: 0 <= j < |s| ==> IsScopeChar(s[j])
  }

  /** The length of the longest prefix of `s` made of word characters:
      what the greedy `\w*` consumes. */
  function WordSpan(s: string): (n: nat)
    ensures n <= |s|
    ensures forall j :: 0 <= j < n ==> IsWordChar(s[j])
    ensures n < |s| ==> !IsWordChar(s[n])
    decreases |s|
  {
    if s == [] || !IsWordChar(s[0]) then 0 else 1 + WordSpan(s[1..])
  }

  /** The same for the scope class: what the greedy `[\w$.\-* ]*` consumes. */
  function ScopeSpan(s: string): (n: nat)
    ensures n <= |s|
    ensures forall j :: 0 <= j < n ==> IsScopeChar(s[j])
    ensures n < |s| ==> !IsScopeChar(s[n])
    decreases |s|
  {
    if s == [] || !IsScopeChar(s[0]) then 0 else 1 + ScopeSpan(s[1..])
  }

  /** The greedy spans are the only prefix lengths that lie in the class and
      are not followed by a class character. */
  lemma WordSpanUnique(s: string, n: nat)
    requires n <= |s| && (forall j :: 0 <= j < n ==> IsWordChar(s[j])) && (n == |s| || !IsWordChar(s[n]))
    ensures WordSpan(s) == n
  {
  }

  lemma ScopeSpanUnique(s: string, n: nat)
    requires n <= |s| && (forall j :: 0 <= j < n ==> IsScopeChar(s[j])) && (n == |s| || !IsScopeChar(s[n]))
    ensures ScopeSpan(s) == n
  {
  }

  /** `.*`: the rest of the line. */
  function RestOfLine(s: string): (line: string)
    ensures line <= s && '\n' !in line
    ensures |line| == |s| || s[|line|] == '\n'
  {
    s[..Text.IndexOf(s, '\n')]
  }

  /** The regular expression as a leftmost-first matcher: a maximal word run;
      then, if `(` follows, a maximal scope run that must be closed by `)`
      and followed by `: `; otherwise `: ` directly. Backtracking cannot
      help: a shorter run would leave a class character where `(`, `)` or
      `:` is needed. */
  function ParseHeader(msg: string): Option<Header>
  {
    var w := WordSpan(msg);
    var rest := msg[w..];
    if |rest| >= 1 && rest[0] == '(' then
      var n := ScopeSpan(rest[1..]);
      var after := rest[1 + n..];
      if |after| >= 3 && after[0] == ')' && after[1] == ':' && after[2] == ' '
      then Some(Header(msg[..w], rest[1..1 + n], RestOfLine(after[3..])))
      else None
    else if |rest| >= 2 && rest[0] == ':' && rest[1] == ' '
    then Some(Header(msg[..w], "", RestOfLine(rest[2..])))
    else None
  }

  /** The text a header occupies at the start of a message, with or without
      the parenthesised scope. */
  function HeaderText(h: Header, scoped: bool): string
  {
    h.kind + (if scoped then "(" + h.scope + ")" else "") + ": " + h.desc
  }

  /** The language of the expression, stated without any matching strategy:
      `msg` starts with the header text, the groups draw on their classes,
      the description stops at a line break or at the end. */
  ghost predicate HeaderShape(msg: string, h: Header, scoped: bool)
  {
    var t := HeaderText(h, scoped);
    AllWord(h.kind) && AllScope(h.scope) && (!scoped ==> h.scope == "") &&
    '\n' !in h.desc &&
    t <= msg && (|msg| == |t| || msg[|t|] == '\n')
  }

  /** The header text followed by the rest of the message, as nested
      concatenations. */
  lemma HeaderTextParts(h: Header, scoped: bool, beyond: string)
    ensures scoped ==>
      HeaderText(h, scoped) + beyond == h.kind + ("(" + (h.scope + ("): " + (h.desc + beyond))))
    ensures !scoped ==>
      HeaderText(h, scoped) + beyond == h.kind + (": " + (h.desc + beyond))
  {
  }

  /** What the matcher returns is a header of the message. */
  lemma ParseHeaderSound(msg: string)
    ensures match ParseHeader(msg)
      case None => true
      case Some(h) => HeaderShape(msg, h, |msg| > |h.kind| && msg[|h.kind|] == '(')
  {
    var w := WordSpan(msg);
    if w < |msg| && msg[w] == '(' {
      ScopedSound(msg, w);
    } else {
      UnscopedSound(msg, w);
    }
  }

  lemma UnscopedSound(msg: string, w: nat)
    requires w == WordSpan(msg) && !(w < |msg| && msg[w] == '(')
    ensures match ParseHeader(msg)
      case None => true
      case Some(h) => HeaderShape(msg, h, false)
  {
    var rest := msg[w..];
    if |rest| >= 2 && rest[0] == ':' && rest[1] == ' ' {
      assert AllWord(msg[..w]) by {
        assert forall j :: 0 <= j < w ==> msg[..w][j] == msg[j];
      }
      var h := Header(msg[..w], "", RestOfLine(rest[2..]));
      assert ParseHeader(msg) == Some(h);
      UnscopedShape(msg, w);
    }
  }

  lemma UnscopedShape(msg: string, w: nat)
    requires w + 2 <= |msg| && msg[w] == ':' && msg[w + 1] == ' '
    requires AllWord(msg[..w])
    ensures HeaderShape(msg, Header(msg[..w], "", RestOfLine(msg[w + 2..])), false)
  {
    var desc := RestOfLine(msg[w + 2..]);
    UnscopedAssembly(msg, w);
    ShapeOfParts(msg, Header(msg[..w], "", desc), false, msg[w + 2..][|desc|..]);
  }

  lemma UnscopedAssembly(msg: string, w: nat)
    requires w + 2 <= |msg| && msg[w] == ':' && msg[w + 1] == ' '
    ensures var desc := RestOfLine(msg[w + 2..]);
      msg == msg[..w] + (": " + (desc + msg[w + 2..][|desc|..]))
  {
    var tail := msg[w + 2..];
    var desc := RestOfLine(tail);
    assert tail == desc + tail[|desc|..];
    assert msg[w..] == ": " + tail;
    assert msg == msg[..w] + msg[w..];
  }

  lemma ScopedSound(msg: string, w: nat)
    requires w == WordSpan(msg) && w < |msg| && msg[w] == '('
    ensures match ParseHeader(msg)
      case None => true
      case Some(h) => HeaderShape(msg, h, true)
  {
    assert AllWord(msg[..w]) by {
      assert forall j :: 0 <= j < w ==> msg[..w][j] == msg[j];
    }
    var rest := msg[w..];
    var n := ScopeSpan(rest[1..]);
    var after := rest[1 + n..];
    if |after| >= 3 && after[0] == ')' && after[1] == ':' && after[2] == ' ' {
      var h := Header(msg[..w], rest[1..1 + n], RestOfLine(after[3..]));
      assert ParseHeader(msg) == Some(h);
      ScopedShape(msg, w, rest, n, after);
    }
  }

  lemma ScopedShape(msg: string, w: nat, rest: string, n: nat, after: string)
    requires w <= |msg| && rest == msg[w..] && |rest| >= 1 && rest[0] == '('
    requires AllWord(msg[..w])
    requires n == ScopeSpan(rest[1..]) && after == rest[1 + n..]
    requires |after| >= 3 && after[0] == ')' && after[1] == ':' && after[2] == ' '
    ensures HeaderShape(msg, Header(msg[..w], rest[1..1 + n], RestOfLine(after[3..])), true)
  {
    var tail := after[3..];
    var desc := RestOfLine(tail);
    var scope := rest[1..1 + n];
    var beyond := tail[|desc|..];
    ScopedAssembly(msg, w, rest, n, after);
    ScopedGroupInClass(rest, n);
    ShapeOfParts(msg, Header(msg[..w], scope, desc), true, beyond);
  }

  lemma ScopedAssembly(msg: string, w: nat, rest: string, n: nat, after: string)
    requires w <= |msg| && rest == msg[w..] && |rest| >= 1 && rest[0] == '('
    requires n <= |rest| - 1 && after == rest[1 + n..]
    requires |after| >= 3 && after[0] == ')' && after[1] == ':' && after[2] == ' '
    ensures var desc := RestOfLine(after[3..]);
      msg == msg[..w] + ("(" + (rest[1..1 + n] + ("): " + (desc + after[3..][|desc|..]))))
  {
    var tail := after[3..];
    var desc := RestOfLine(tail);
    assert tail == desc + tail[|desc|..];
    assert after == "): " + tail;
    assert rest[1..] == rest[1..1 + n] + after;
    assert rest == "(" + rest[1..];
    assert msg == msg[..w] + rest;
  }

  lemma ScopedGroupInClass(rest: string, n: nat)
    requires |rest| >= 1 && n == ScopeSpan(rest[1..])
    ensures AllScope(rest[1..1 + n])
  {
    assert forall j :: 0 <= j < n ==> rest[1..1 + n][j] == rest[1..][j];
  }

  /** A message assembled from well-formed groups has that header. */
  lemma ShapeOfParts(msg: string, h: Header, scoped: bool, beyond: string)
    requires AllWord(h.kind) && AllScope(h.scope) && (!scoped ==> h.scope == "")
    requires '\n' !in h.desc && (beyond == "" || beyond[0] == '\n')
    requires scoped ==> msg == h.kind + ("(" + (h.scope + ("): " + (h.desc + beyond))))
    requires !scoped ==> msg == h.kind + (": " + (h.desc + beyond))
    ensures HeaderShape(msg, h, scoped)
  {
    HeaderTextParts(h, scoped, beyond);
    assert msg == HeaderText(h, scoped) + beyond;
  }

  /** Whatever header the message has, the matcher finds that one: the
      match is unique. */
  lemma ParseHeaderComplete(msg: string, h: Header, scoped: bool)
    requires HeaderShape(msg, h, scoped)
    ensures ParseHeader(msg) == Some(h)
  {
    var t := HeaderText(h, scoped);
    var beyond := msg[|t|..];
    assert msg == t + beyond;
    HeaderTextParts(h, scoped, beyond);
    RestOfLineIsLine(h.desc, beyond);
    if scoped {
      ScopedComplete(msg, h, beyond);
    } else {
      UnscopedComplete(msg, h, beyond);
    }
  }

  lemma ScopedComplete(msg: string, h: Header, beyond: string)
    requires AllWord(h.kind) && AllScope(h.scope)
    requires RestOfLine(h.desc + beyond) == h.desc
    requires msg == h.kind + ("(" + (h.scope + ("): " + (h.desc + beyond))))
    ensures ParseHeader(msg) == Some(h)
  {
    var k := |h.kind|;
    var rest := "(" + (h.scope + ("): " + (h.desc + beyond)));
    assert msg[..k] == h.kind && msg[k..] == rest;
    KindIsWordSpan(msg, h.kind, rest);
    var inner := h.scope + ("): " + (h.desc + beyond));
    assert rest[1..] == inner;
    var after := "): " + (h.desc + beyond);
    ScopeIsScopeSpan(inner, h.scope, after);
    assert rest[1..1 + |h.scope|] == h.scope;
    assert rest[1 + |h.scope|..] == after;
    assert after[3..] == h.desc + beyond;
  }

  lemma KindIsWordSpan(msg: string, kind: string, rest: string)
    requires msg == kind + rest && AllWord(kind) && (rest == "" || !IsWordChar(rest[0]))
    ensures WordSpan(msg) == |kind|
  {
    assert forall j :: 0 <= j < |kind| ==> msg[j] == kind[j];
    WordSpanUnique(msg, |kind|);
  }

  lemma ScopeIsScopeSpan(inner: string, scope: string, after: string)
    requires inner == scope + after && AllScope(scope) && (after == "" || !IsScopeChar(after[0]))
    ensures ScopeSpan(inner) == |scope|
  {
    assert forall j :: 0 <= j < |scope| ==> inner[j] == scope[j];
    ScopeSpanUnique(inner, |scope|);
  }

  lemma UnscopedComplete(msg: string, h: Header, beyond: string)
    requires AllWord(h.kind) && h.scope == ""
    requires RestOfLine(h.desc + beyond) == h.desc
    requires msg == h.kind + (": " + (h.desc + beyond))
    ensures ParseHeader(msg) == Some(h)
  {
    var k := |h.kind|;
    var rest := ": " + (h.desc + beyond);
    assert msg[..k] == h.kind && msg[k..] == rest;
    KindIsWordSpan(msg, h.kind, rest);
    assert rest[0] == ':' && rest[1] == ' ';
    assert rest[2..] == h.desc + beyond;
  }

  lemma IndexOfUnique(s: string, c: char, k: nat)
    requires k <= |s| && (forall j :: 0 <= j < k ==> s[j] != c) && (k == |s| || s[k] == c)
    ensures Text.IndexOf(s, c) == k
  {
  }

  lemma RestOfLineIsLine(line: string, beyond: string)
    requires '\n' !in line && (beyond == "" || beyond[0] == '\n')
    ensures RestOfLine(line + beyond) == line
  {
    var s := line + beyond;
    assert forall j :: 0 <= j < |line| ==> s[j] == line[j];
    IndexOfUnique(s, '\n', |line|);
  }

  /** Round trip: a well-formed header written at the start of a message,
      followed by an end of line or nothing, is read back unchanged. */
  lemma HeaderRoundTrip(h: Header, scoped: bool, tail: string)
    requires AllWord(h.kind) && AllScope(h.scope)
    requires !scoped ==> h.scope == ""
    requires '\n' !in h.desc
    requires tail == "" || tail[0] == '\n'
    ensures ParseHeader(HeaderText(h, scoped) + tail) == Some(h)
  {
    var msg := HeaderText(h, scoped) + tail;
    assert msg[..|HeaderText(h, scoped)|] == HeaderText(h, scoped);
    ParseHeaderComplete(msg, h, scoped);
  }

  /** A message matches exactly when it has a header. */
  lemma ParseHeaderMatchesIffShaped(msg: string)
    ensures ParseHeader(msg).Some? <==> exists h, scoped :: HeaderShape(msg, h, scoped)
  {
    ParseHeaderSound(msg);
    if exists h, scoped :: HeaderShape(msg, h, scoped) {
      var h, scoped :| HeaderShape(msg, h, scoped);
      ParseHeaderComplete(msg, h, scoped);
    }
  }

  // ---- The version fold ----

  /** `less` is a strict weak order: asymmetric, and incomparability is
      transitive (if a < c then every b lies above a or below c). */
  ghost predicate StrictWeakOrder<V(!new)>(less: (V, V) -> bool)
  {
    (forall a, b :: less(a, b) ==> !less(b, a)) &&
    (forall a, b, c :: less(a, c) ==> less(a, b) || less(b, c))
  }

  /** The version a log entry offers: the strictly parsed tag of its hash,
      for a message whose header matches; none otherwise. */
  function Candidate<V>(e: LogEntry, tags: map<string, string>, parse: string -> Option<V>): Option<V>
  {
    if ParseHeader(e.message).Some? then parse(LookupTag(tags, e.hash)) else None
  }

  /** One step of the fold: replace the version by a strictly greater
      candidate. */
  function Step<V>(version: V, e: LogEntry, tags: map<string, string>, parse: string -> Option<V>,
                   less: (V, V) -> bool): V
  {
    match Candidate(e, tags, parse)
    case None => version
    case Some(v) => if less(version, v) then v else version
  }

  /** The version after visiting `log` in order, from the zero version. */
  function VersionAfter<V>(log: seq<LogEntry>, tags: map<string, string>, parse: string -> Option<V>,
                           less: (V, V) -> bool, zero: V): V
    decreases |log|
  {
    if log == [] then zero
    else Step(VersionAfter(log[..|log| - 1], tags, parse, less, zero), log[|log| - 1], tags, parse, less)
  }

  /** A commit whose header does not match, or whose hash has no tag (its
      lookup is "", which the strict parser rejects), leaves the version as
      it is. */
  lemma SkippedCommitsKeepVersion<V>(version: V, e: LogEntry, tags: map<string, string>,
                                     parse: string -> Option<V>, less: (V, V) -> bool)
    requires parse("") == None
    requires ParseHeader(e.message).None? || e.hash !in tags
    ensures Step(version, e, tags, parse, less) == version
  {
  }

  /** The version never decreases along the log. */
  lemma {:induction false} VersionNeverDecreases<V(!new)>(log: seq<LogEntry>, i: nat, tags: map<string, string>,
                                                   parse: string -> Option<V>, less: (V, V) -> bool, zero: V)
    requires StrictWeakOrder(less)
    requires i <= |log|
    ensures !less(VersionAfter(log, tags, parse, less, zero), VersionAfter(log[..i], tags, parse, less, zero))
    decreases |log|
  {
    var final := VersionAfter(log, tags, parse, less, zero);
    if i < |log| {
      var n := |log| - 1;
      assert log[..n][..i] == log[..i];
      VersionNeverDecreases(log[..n], i, tags, parse, less, zero);
      var before := VersionAfter(log[..n], tags, parse, less, zero);
      var earlier := VersionAfter(log[..i], tags, parse, less, zero);
      assert !less(final, before);
    } else {
      assert log[..i] == log;
    }
  }

  /** The final version is at least every candidate and the zero version,
      and it is one of them. */
  lemma {:induction false} VersionIsMaximum<V(!new)>(log: seq<LogEntry>, tags: map<string, string>,
                                              parse: string -> Option<V>, less: (V, V) -> bool, zero: V)
    requires StrictWeakOrder(less)
    ensures var final := VersionAfter(log, tags, parse, less, zero);
      !less(final, zero) &&
      (forall i :: 0 <= i < |log| && Candidate(log[i], tags, parse).Some? ==>
         !less(final, Candidate(log[i], tags, parse).value)) &&
      (final == zero || exists i :: 0 <= i < |log| && Candidate(log[i], tags, parse) == Some(final))
    decreases |log|
  {
    var final := VersionAfter(log, tags, parse, less, zero);
    if log != [] {
      var n := |log| - 1;
      var before := VersionAfter(log[..n], tags, parse, less, zero);
      VersionIsMaximum(log[..n], tags, parse, less, zero);
      assert !less(final, before);
      forall i | 0 <= i < |log| && Candidate(log[i], tags, parse).Some?
        ensures !less(final, Candidate(log[i], tags, parse).value)
      {
        var v := Candidate(log[i], tags, parse).value;
        if i < n {
          assert log[..n][i] == log[i];
          assert !less(before, v);
        }
      }
      if final != before {
        assert Candidate(log[n], tags, parse) == Some(final);
      } else if final != zero {
        var i :| 0 <= i < n && Candidate(log[..n][i], tags, parse) == Some(before);
        assert log[..n][i] == log[i];
      }
    }
  }

  /** The commit record built for each matching message. */
  datatype Commit<V> = Commit(tag: string, version: Option<V>, hash: string, kind: string, scope: string, desc: string)

  /** The present values of a sequence of options, in order. */
  function Somes<T>(rs: seq<Option<T>>): seq<T>
    decreases |rs|
  {
    if rs == [] then []
    else
      var r := rs[|rs| - 1];
      Somes(rs[..|rs| - 1]) + (if r.Some? then [r.value] else [])
  }

  /** Every value kept comes from an option of the input. */
  lemma {:induction false} SomesComeFromInputs<T>(rs: seq<Option<T>>)
    ensures |Somes(rs)| <= |rs|
    ensures forall k :: 0 <= k < |Somes(rs)| ==> exists i :: 0 <= i < |rs| && rs[i] == Some(Somes(rs)[k])
    decreases |rs|
  {
    if rs != [] {
      var n := |rs| - 1;
      SomesComeFromInputs(rs[..n]);
      var before := Somes(rs[..n]);
      forall k | 0 <= k < |Somes(rs)|
        ensures exists i :: 0 <= i < |rs| && rs[i] == Some(Somes(rs)[k])
      {
        if k < |before| {
          var i :| 0 <= i < n && rs[..n][i] == Some(before[k]);
          assert rs[i] == Some(Somes(rs)[k]);
        } else {
          assert rs[n] == Some(Somes(rs)[k]);
        }
      }
    }
  }

  /** Every present option of the input is kept. */
  lemma {:induction false} InputsAreKept<T>(rs: seq<Option<T>>)
    ensures forall i :: 0 <= i < |rs| && rs[i].Some? ==> exists k :: 0 <= k < |Somes(rs)| && Somes(rs)[k] == rs[i].value
    decreases |rs|
  {
    if rs != [] {
      var n := |rs| - 1;
      InputsAreKept(rs[..n]);
      var before := Somes(rs[..n]);
      forall i | 0 <= i < |rs| && rs[i].Some?
        ensures exists k :: 0 <= k < |Somes(rs)| && Somes(rs)[k] == rs[i].value
      {
        if i < n {
          assert rs[..n][i] == rs[i];
          var k :| 0 <= k < |before| && before[k] == rs[..n][i].value;
          assert Somes(rs)[k] == rs[i].value;
        } else {
          assert Somes(rs)[|Somes(rs)| - 1] == rs[i].value;
        }
      }
    }
  }

  /** The record built for one log entry: present exactly when its message
      matches the header pattern. */
  function Record<V>(e: LogEntry, tags: map<string, string>, parse: string -> Option<V>): Option<Commit<V>>
  {
    match ParseHeader(e.message)
    case None => None
    case Some(h) =>
      var tag := LookupTag(tags, e.hash);
      Some(Commit(tag, parse(tag), e.hash, h.kind, h.scope, h.desc))
  }

  /** The records of a log, entry by entry. */
  function Records<V>(log: seq<LogEntry>, tags: map<string, string>, parse: string -> Option<V>): seq<Option<Commit<V>>>
  {
    seq(|log|, i requires 0 <= i < |log| => Record(log[i], tags, parse))
  }

  /** The records shown, one per matching message, in log order. */
  function Shown<V>(log: seq<LogEntry>, tags: map<string, string>, parse: string -> Option<V>): seq<Commit<V>>
  {
    Somes(Records(log, tags, parse))
  }

  /** `c` is the record of entry `e`. */
  ghost predicate ShowsEntry<V>(c: Commit<V>, e: LogEntry, tags: map<string, string>, parse: string -> Option<V>)
  {
    ParseHeader(e.message) == Some(Header(c.kind, c.scope, c.desc)) &&
    c.hash == e.hash && c.tag == LookupTag(tags, e.hash) && c.version == parse(c.tag)
  }

  /** An entry has a record exactly when its message matches, and the record
      carries the entry's hash, tag, parsed version and groups. */
  lemma RecordShowsEntry<V>(e: LogEntry, tags: map<string, string>, parse: string -> Option<V>)
    ensures Record(e, tags, parse).Some? <==> ParseHeader(e.message).Some?
    ensures Record(e, tags, parse).Some? ==> ShowsEntry(Record(e, tags, parse).value, e, tags, parse)
  {
  }

  /** Each shown record carries the hash, the looked-up tag, its strict
      parse and the three groups of one matching log entry; and every
      matching entry is shown. */
  lemma ShownAreMatchingEntries<V>(log: seq<LogEntry>, tags: map<string, string>, parse: string -> Option<V>)
    ensures var shown := Shown(log, tags, parse);
      |shown| <= |log| &&
      (forall k :: 0 <= k < |shown| ==>
         exists i :: 0 <= i < |log| && ShowsEntry(shown[k], log[i], tags, parse)) &&
      (forall i :: 0 <= i < |log| && ParseHeader(log[i].message).Some? ==>
         exists k :: 0 <= k < |shown| && ShowsEntry(shown[k], log[i], tags, parse))
  {
    var rs := Records(log, tags, parse);
    var shown := Shown(log, tags, parse);
    SomesComeFromInputs(rs);
    InputsAreKept(rs);
    forall k | 0 <= k < |shown|
      ensures exists i :: 0 <= i < |log| && ShowsEntry(shown[k], log[i], tags, parse)
    {
      var i :| 0 <= i < |rs| && rs[i] == Some(shown[k]);
      RecordShowsEntry(log[i], tags, parse);
    }
    forall i | 0 <= i < |log| && ParseHeader(log[i].message).Some?
      ensures exists k :: 0 <= k < |shown| && ShowsEntry(shown[k], log[i], tags, parse)
    {
      RecordShowsEntry(log[i], tags, parse);
      assert rs[i].Some?;
      var k :| 0 <= k < |shown| && shown[k] == rs[i].value;
    }
  }

  /** `gitRun`: build the tag map, then fold the log, recording each matching
      commit. Opening the repository, reading its refs and its log are
      inputs; the printing is the returned records. */
  method GitRun<V>(refs: seq<Ref>, log: seq<LogEntry>, parse: string -> Option<V>, less: (V, V) -> bool, zero: V)
    returns (version: V, shown: seq<Commit<V>>)
    ensures version == VersionAfter(log, TagMap(refs), parse, less, zero)
    ensures shown == Shown(log, TagMap(refs), parse)
  {
    var tags := BuildTags(refs);
    version := zero;
    shown := [];
    var i := 0;
    while i < |log|
      invariant 0 <= i <= |log|
      invariant version == VersionAfter(log[..i], tags, parse, less, zero)
      invariant shown == Shown(log[..i], tags, parse)
    {
      assert log[..i + 1][..i] == log[..i];
      var e := log[i];
      assert Records(log[..i + 1], tags, parse)[..i] == Records(log[..i], tags, parse);
      var header := ParseHeader(e.message);
      if header.Some? {
        var tag := LookupTag(tags, e.hash);
        var v := parse(tag);
        if v.Some? && less(version, v.value) {
          version := v.value;
        }
        shown := shown + [Commit(tag, v, e.hash, header.value.kind, header.value.scope, header.value.desc)];
      }
      i := i + 1;
    }
    assert log[..i] == log;
  }
}
