/**
 The feature list of the IoT SDK metrics (source/mqtt/IoTSDKMetrics.cpp): comma-separated tokens `X/v`,
 where X is a feature id from A to K and v a non-empty value. This module has the parser, the printer,
 the merge of two lists, and what they mean to each other. Feature maps are keyed by the id; the source
 keys them by the id as a one-character string, which orders them the same way.
 */
module FeatureList {

  type Features = map<char, string>

  predicate ValidId(id: char) {
    'A' <= id <= 'K'
  }

  // ---------- Tokens ----------

  /** The position of the first `c` at or after `pos`, or the length. */
  function IndexOf(s: string, c: char, pos: nat): (i: nat)
    requires pos <= |s|
    ensures pos <= i <= |s|
    ensures i < |s| ==> s[i] == c
    ensures forall k :: pos <= k < i ==> s[k] != c
    decreases |s| - pos
  {
    if pos == |s| || s[pos] == c then pos else IndexOf(s, c, pos + 1)
  }

  /** All tokens between commas, empty ones included. */
  function Split(s: string): (ts: seq<string>)
    ensures |ts| >= 1
    decreases |s|
  {
    var i := IndexOf(s, ',', 0);
    if i == |s| then [s] else [s[..i]] + Split(s[i + 1..])
  }

  function Join(ts: seq<string>): string {
    if ts == [] then ""
    else if |ts| == 1 then ts[0]
    else ts[0] + "," + Join(ts[1..])
  }

  predicate ValidToken(t: string) {
    |t| >= 3 && ValidId(t[0]) && t[1] == '/'
  }

  /** The source's test: the first slash is at 1, something follows it, and the id is known. */
  predicate TokenPasses(t: string) {
    IndexOf(t, '/', 0) == 1 && 1 + 1 < |t| && ValidId(t[0])
  }

  lemma TokenTest(t: string)
    ensures TokenPasses(t) <==> ValidToken(t)
  {
    if ValidToken(t) {
      assert IndexOf(t, '/', 1) == 1;
    }
  }

  // ---------- Parsing ----------

  /** Later tokens override earlier ones; tokens that are not valid contribute nothing. */
  function Fold(ts: seq<string>): Features {
    if ts == [] then map[]
    else
      var m := Fold(ts[..|ts| - 1]);
      var t := ts[|ts| - 1];
      if ValidToken(t) then m[t[0] := t[2..]] else m
  }

  function Parse(s: string): Features {
    Fold(Split(s))
  }

  /** `k` is the last valid token for `id`. */
  predicate LastFor(ts: seq<string>, id: char, k: int) {
    && 0 <= k < |ts| && ValidToken(ts[k]) && ts[k][0] == id
    && forall j :: k < j < |ts| ==> !(ValidToken(ts[j]) && ts[j][0] == id)
  }

  /** What parsing means: an id maps to the value of its last valid token, and is absent if it has none. */
  lemma {:induction false} FoldTakesLast(ts: seq<string>, id: char)
    ensures id in Fold(ts) <==> exists k :: LastFor(ts, id, k)
    ensures forall k :: LastFor(ts, id, k) ==> id in Fold(ts) && Fold(ts)[id] == ts[k][2..]
    decreases |ts|
  {
    if ts != [] {
      var n := |ts| - 1;
      FoldTakesLast(ts[..n], id);
      if ValidToken(ts[n]) && ts[n][0] == id {
        assert LastFor(ts, id, n);
      } else {
        assert forall k :: LastFor(ts, id, k) <==> LastFor(ts[..n], id, k);
      }
    }
  }

  lemma {:induction false} FoldConcat(a: seq<string>, b: seq<string>)
    ensures Fold(a + b) == Fold(a) + Fold(b)
    decreases |b|
  {
    if b == [] {
      assert a + b == a;
    } else {
      var n := |b| - 1;
      assert (a + b)[..|a + b| - 1] == a + b[..n];
      FoldConcat(a, b[..n]);
    }
  }

  /** What one token contributes. */
  function TokenMap(t: string): Features {
    if ValidToken(t) then map[t[0] := t[2..]] else map[]
  }

  lemma FoldOne(t: string)
    ensures Fold([t]) == TokenMap(t)
  {
    var ts := [t];
    assert ts[..0] == [];
  }

  lemma ParseStep(s: string, pos: nat, comma: nat)
    requires pos <= |s| && comma == IndexOf(s, ',', pos)
    ensures comma == |s| ==> Parse(s[pos..]) == TokenMap(s[pos..comma])
    ensures comma < |s| ==> Parse(s[pos..]) == TokenMap(s[pos..comma]) + Parse(s[comma + 1..])
  {
    var t := s[pos..comma];
    SplitAt(s, pos, comma);
    FoldOne(t);
    if comma < |s| {
      FoldConcat([t], Split(s[comma + 1..]));
    }
  }

  lemma AddToken(m: Features, t: string, rest: Features)
    ensures m + TokenMap(t) == if ValidToken(t) then m[t[0] := t[2..]] else m
    ensures m + (TokenMap(t) + rest) == (m + TokenMap(t)) + rest
  {
  }

  lemma ParseEmpty()
    ensures Parse("") == map[]
  {
    assert Split("") == [""];
    FoldOne("");
  }

  /**
   The parsing loop: it updates the map token by token. The source leaves the loop at the end of the
   string without looking at an empty last token.
   */
  method ParseInto(features: Features, s: string) returns (r: Features)
    ensures r == features + Parse(s)
  {
    r := features;
    var pos := 0;
    assert s[0..] == s;
    while pos < |s|
      invariant pos <= |s|
      invariant r + Parse(s[pos..]) == features + Parse(s)
      decreases |s| - pos
    {
      var comma := IndexOf(s, ',', pos);
      var token := s[pos..comma];
      ParseStep(s, pos, comma);
      TokenTest(token);
      AddToken(r, token, if comma == |s| then map[] else Parse(s[comma + 1..]));
      if TokenPasses(token) {
        r := r[token[0] := token[2..]];
      }
      if comma == |s| {
        return;
      }
      pos := comma + 1;
    }
    assert s[pos..] == "";
    ParseEmpty();
  }

  lemma {:induction false} IndexOfShift(s: string, c: char, from: nat, pos: nat)
    requires from <= pos <= |s|
    ensures IndexOf(s[from..], c, pos - from) == IndexOf(s, c, pos) - from
    decreases |s| - pos
  {
    if pos < |s| && s[pos] != c {
      IndexOfShift(s, c, from, pos + 1);
    }
  }

  lemma Slices(s: string, pos: nat, comma: nat)
    requires pos <= comma <= |s|
    ensures s[pos..][..comma - pos] == s[pos..comma]
    ensures comma < |s| ==> s[pos..][comma - pos + 1..] == s[comma + 1..]
    ensures comma == |s| ==> s[pos..] == s[pos..comma]
  {
  }

  lemma SplitUnfold(t: string, i: nat)
    requires i == IndexOf(t, ',', 0)
    ensures i == |t| ==> Split(t) == [t]
    ensures i < |t| ==> Split(t) == [t[..i]] + Split(t[i + 1..])
  {
  }

  lemma SplitAt(s: string, pos: nat, comma: nat)
    requires pos <= |s| && comma == IndexOf(s, ',', pos)
    ensures comma == |s| ==> Split(s[pos..]) == [s[pos..comma]]
    ensures comma < |s| ==> Split(s[pos..]) == [s[pos..comma]] + Split(s[comma + 1..])
  {
    IndexOfShift(s, ',', pos, pos);
    SplitUnfold(s[pos..], comma - pos);
    Slices(s, pos, comma);
  }

  // ---------- Printing ----------

  predicate CommaFree(s: string) {
    forall i :: 0 <= i < |s| ==> s[i] != ','
  }

  /** What a parsed map looks like: known ids, and values that are not empty and hold no comma. */
  predicate WellFormed(m: Features) {
    forall id :: id in m ==> ValidId(id) && m[id] != "" && CommaFree(m[id])
  }

  function MinId(ids: set<char>): (id: char)
    requires ids != {}
    ensures id in ids && forall other :: other in ids ==> id <= other
  {
    SomeMin(ids);
    var id :| id in ids && forall other :: other in ids ==> id <= other;
    id
  }

  lemma {:induction false} SomeMin(ids: set<char>)
    requires ids != {}
    ensures exists id :: id in ids && forall other :: other in ids ==> id <= other
  {
    var id :| id in ids;
    if ids != {id} {
      SomeMin(ids - {id});
      var least :| least in ids - {id} && forall other :: other in ids - {id} ==> least <= other;
      var m := if id <= least then id else least;
      assert forall other :: other in ids ==> other == id || other in ids - {id};
      assert m in ids && forall other :: other in ids ==> m <= other;
    }
  }

  function Token(id: char, value: string): string {
    [id, '/'] + value
  }

  /** The tokens of a map in the order of the ids, which is the order `std::map` iterates in. */
  function Tokens(m: Features): seq<string>
    decreases m.Keys
  {
    if m == map[] then []
    else
      var id := MinId(m.Keys);
      [Token(id, m[id])] + Tokens(m - {id})
  }

  function Print(m: Features): string {
    Join(Tokens(m))
  }

  lemma {:induction false} JoinSnoc(ts: seq<string>, t: string)
    requires ts != []
    ensures Join(ts + [t]) == Join(ts) + "," + t
  {
    if |ts| == 1 {
      assert (ts + [t])[1..] == [t];
    } else {
      assert (ts + [t])[1..] == ts[1..] + [t];
      JoinSnoc(ts[1..], t);
    }
  }

  lemma {:induction false} JoinNotEmpty(ts: seq<string>)
    requires ts != [] && ts[0] != ""
    ensures Join(ts) != ""
  {
  }

  lemma NextToken(done: seq<string>, rest: Features, id: char)
    requires rest != map[] && id == MinId(rest.Keys)
    ensures done + Tokens(rest) == (done + [Token(id, rest[id])]) + Tokens(rest - {id})
  {
  }

  /** The printing loop: walk the map in order of ids, with a comma before every token but the first. */
  method PrintFeatures(m: Features) returns (r: string)
    ensures r == Print(m)
  {
    r := "";
    var rest := m;
    ghost var done: seq<string> := [];
    while rest != map[]
      invariant r == Join(done) && (done != [] ==> done[0] != "")
      invariant Tokens(m) == done + Tokens(rest)
      decreases rest.Keys
    {
      var id := MinId(rest.Keys);
      if done != [] {
        JoinNotEmpty(done);
        JoinSnoc(done, Token(id, rest[id]));
      }
      if r != "" {
        r := r + ",";
      }
      r := r + [id] + "/" + rest[id];
      NextToken(done, rest, id);
      done := done + [Token(id, rest[id])];
      rest := rest - {id};
    }
    assert done + Tokens(rest) == done;
  }

  // ---------- Round trip ----------

  lemma NoCommaIndex(t: string, rest: string)
    requires CommaFree(t)
    ensures IndexOf(t, ',', 0) == |t|
    ensures IndexOf(t + "," + rest, ',', 0) == |t|
  {
    var u := t + "," + rest;
    assert u[|t|] == ',';
    assert forall i :: 0 <= i < |t| ==> u[i] == t[i];
  }

  /** Splitting undoes joining, for tokens without commas. */
  lemma {:induction false} SplitJoin(ts: seq<string>)
    requires ts != [] && forall t :: t in ts ==> CommaFree(t)
    ensures Split(Join(ts)) == ts
  {
    assert ts[0] in ts;
    if |ts| == 1 {
      NoCommaIndex(ts[0], "");
    } else {
      var rest := Join(ts[1..]);
      NoCommaIndex(ts[0], rest);
      var u := ts[0] + "," + rest;
      assert u[..|ts[0]|] == ts[0] && u[|ts[0]| + 1..] == rest;
      SplitJoin(ts[1..]);
    }
  }

  lemma {:induction false} TokensWellFormed(m: Features)
    requires WellFormed(m)
    ensures forall t :: t in Tokens(m) ==> CommaFree(t) && ValidToken(t)
    decreases m.Keys
  {
    if m != map[] {
      var id := MinId(m.Keys);
      TokensWellFormed(m - {id});
      assert CommaFree(Token(id, m[id]));
    }
  }

  lemma {:induction false} FoldTokens(m: Features)
    requires WellFormed(m)
    ensures Fold(Tokens(m)) == m
    decreases m.Keys
  {
    if m != map[] {
      var id := MinId(m.Keys);
      var t := Token(id, m[id]);
      FoldTokens(m - {id});
      FoldConcat([t], Tokens(m - {id}));
      FoldOne(t);
      assert t[2..] == m[id];
      assert m == map[id := m[id]] + (m - {id});
    }
  }

  /** Printing then parsing gives the map back, slashes inside values included. */
  lemma ParsePrint(m: Features)
    requires WellFormed(m)
    ensures Parse(Print(m)) == m
  {
    TokensWellFormed(m);
    FoldTokens(m);
    if m == map[] {
      ParseEmpty();
    } else {
      SplitJoin(Tokens(m));
    }
  }

  lemma {:induction false} SplitCommaFree(s: string)
    ensures forall t :: t in Split(s) ==> CommaFree(t)
    decreases |s|
  {
    var i := IndexOf(s, ',', 0);
    if i < |s| {
      SplitCommaFree(s[i + 1..]);
    }
  }

  lemma {:induction false} FoldWellFormed(ts: seq<string>)
    requires forall t :: t in ts ==> CommaFree(t)
    ensures WellFormed(Fold(ts))
    decreases |ts|
  {
    if ts != [] {
      var t := ts[|ts| - 1];
      assert t in ts;
      FoldWellFormed(ts[..|ts| - 1]);
    }
  }

  /** Every parsed map is well-formed. */
  lemma ParseWellFormed(s: string)
    ensures WellFormed(Parse(s))
  {
    SplitCommaFree(s);
    FoldWellFormed(Split(s));
  }

  // ---------- Merging ----------

  function Merged(crt: string, user: string): string {
    if user == "" then crt else Print(Parse(crt) + Parse(user))
  }

  method MergeFeatureLists(crt: string, user: string) returns (r: string)
    ensures r == Merged(crt, user)
  {
    if user == "" {
      return crt;
    }
    var features := ParseInto(map[], crt);
    features := ParseInto(features, user);
    assert features == Parse(crt) + Parse(user);
    r := PrintFeatures(features);
  }

  /** Parsing a merge gives the first list overridden by the second, for all strings. */
  lemma MergeOverrides(crt: string, user: string)
    ensures Parse(Merged(crt, user)) == Parse(crt) + Parse(user)
  {
    if user == "" {
      ParseEmpty();
    } else {
      ParseWellFormed(crt);
      ParseWellFormed(user);
      ParsePrint(Parse(crt) + Parse(user));
    }
  }

  // ---------- Canonical lists ----------

  /** Every token is valid and the ids ascend. */
  predicate Ascending(ts: seq<string>) {
    && (forall i :: 0 <= i < |ts| ==> ValidToken(ts[i]))
    && (forall i, j :: 0 <= i < j < |ts| ==> ts[i][0] < ts[j][0])
  }

  predicate Canonical(s: string) {
    s == "" || Ascending(Split(s))
  }

  lemma RestAbove(ts: seq<string>, id: char)
    requires Ascending(ts) && ts != [] && id in Fold(ts[1..])
    ensures ts[0][0] < id
  {
    FoldTakesLast(ts[1..], id);
    var k :| LastFor(ts[1..], id, k);
    assert ts[1..][k] == ts[k + 1];
  }

  lemma FirstOfAscending(ts: seq<string>)
    requires Ascending(ts) && ts != []
    ensures Fold(ts) == map[ts[0][0] := ts[0][2..]] + Fold(ts[1..])
    ensures forall id :: id in Fold(ts[1..]) ==> ts[0][0] < id
  {
    assert ts == [ts[0]] + ts[1..];
    FoldConcat([ts[0]], ts[1..]);
    FoldOne(ts[0]);
    forall id | id in Fold(ts[1..]) ensures ts[0][0] < id {
      RestAbove(ts, id);
    }
  }

  lemma TokensUnfold(first: char, value: string, rest: Features)
    requires forall id :: id in rest ==> first < id
    ensures Tokens(map[first := value] + rest) == [Token(first, value)] + Tokens(rest)
  {
    var m := map[first := value] + rest;
    assert m.Keys == {first} + rest.Keys;
    assert MinId(m.Keys) == first;
    assert m - {first} == rest;
  }

  /** An ascending list of tokens is what its own map prints. */
  lemma {:induction false} TokensOfAscending(ts: seq<string>)
    requires Ascending(ts)
    ensures Tokens(Fold(ts)) == ts
    decreases |ts|
  {
    if ts != [] {
      FirstOfAscending(ts);
      TokensUnfold(ts[0][0], ts[0][2..], Fold(ts[1..]));
      TokensOfAscending(ts[1..]);
      assert Token(ts[0][0], ts[0][2..]) == ts[0];
      assert ts == [ts[0]] + ts[1..];
    }
  }

  lemma {:induction false} TokensAscend(m: Features)
    requires WellFormed(m)
    ensures Ascending(Tokens(m))
    ensures forall t :: t in Tokens(m) ==> t != "" && t[0] in m
    decreases m.Keys
  {
    if m != map[] {
      TokensAscend(m - {MinId(m.Keys)});
    }
  }

  /**
   A list is left as it is by parsing and printing exactly if it is canonical, so the shortcut of the
   merge for an empty user list agrees with the long way round exactly on canonical lists.
   */
  lemma CanonicalIffFixed(s: string)
    ensures Print(Parse(s)) == s <==> Canonical(s)
  {
    var m := Parse(s);
    ParseWellFormed(s);
    if Canonical(s) {
      if s == "" {
        ParseEmpty();
      } else {
        TokensOfAscending(Split(s));
        JoinSplit(s);
      }
    }
    if Print(m) == s && s != "" {
      TokensAscend(m);
      TokensWellFormed(m);
      SplitJoin(Tokens(m));
    }
  }

  /** Joining undoes splitting, always. */
  lemma {:induction false} JoinSplit(s: string)
    ensures Join(Split(s)) == s
    decreases |s|
  {
    var i := IndexOf(s, ',', 0);
    if i < |s| {
      JoinSplit(s[i + 1..]);
      assert s == s[..i] + "," + s[i + 1..];
    }
  }

  /** Without a second list the merge is the first one as it is; with one it is canonical. */
  lemma MergeIsCanonical(crt: string, user: string)
    ensures user == "" ==> Merged(crt, user) == crt
    ensures user != "" ==> Canonical(Merged(crt, user))
  {
    if user != "" {
      var m := Parse(crt) + Parse(user);
      ParseWellFormed(crt);
      ParseWellFormed(user);
      ParsePrint(m);
      CanonicalIffFixed(Print(m));
    }
  }

  /** A single token is a feature exactly if its id is one of the eleven and its value is not empty. */
  lemma SingleToken(id: char, value: string)
    requires id != ',' && CommaFree(value)
    ensures Parse([id, '/'] + value) == if id in "ABCDEFGHIJK" && value != "" then map[id := value] else map[]
  {
    var t := [id, '/'] + value;
    NoCommaIndex(t, "");
    assert Split(t) == [t];
    FoldOne(t);
    assert t[2..] == value;
    assert ValidId(id) <==> id in "ABCDEFGHIJK";
  }

  /** The shortcut is not the long way round on every list. */
  lemma ShortcutKeepsUnsortedList()
    ensures Merged("B/x,A/y", "") == "B/x,A/y" && !Canonical("B/x,A/y")
  {
    var ts := ["B/x", "A/y"];
    assert Join(ts) == "B/x,A/y" by {
      assert ts[1..] == ["A/y"];
    }
    SplitJoin(ts);
    assert !(ts[0][0] < ts[1][0]);
  }
}
