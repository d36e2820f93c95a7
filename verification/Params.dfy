/** The parameter loop of the HTTP request: `key=value` pairs into a map that ignores case. */
module Params {
  import opened Blocks
  import opened Fibers
  import opened Url

  const EQUALS: Byte := 61

  // ------------------------------------------------------------ the map

  function Lower(c: Byte): Byte {
    if 65 <= c <= 90 then c + 32 else c
  }

  /** strcasecmp looks at the characters before the first NUL, in lower case. */
  function Fold(key: Text): Text {
    if key == [] || key[0] == 0 then [] else [Lower(key[0])] + Fold(key[1..])
  }

  /** What two keys are compared by: the characters before the first NUL, letters in lower case. */
  lemma {:induction false} FoldsExactly(key: Text, n: nat)
    requires n <= |key| && (n < |key| ==> key[n] == 0) && forall i :: 0 <= i < n ==> key[i] != 0
    ensures |Fold(key)| == n
    ensures forall i :: 0 <= i < n ==>
              Fold(key)[i] == if 'A' as int <= key[i] <= 'Z' as int then key[i] - 'A' as int + 'a' as int else key[i]
  {
    if n > 0 {
      FoldsExactly(key[1..], n - 1);
    }
  }

  /** A std::map ordered by CaseInsensitiveLess: the folded key leads to the pair that was inserted. */
  type ParamMap = map<Text, Pair>

  datatype Pair = Pair(key: Text, value: Text)

  /** std::map::insert: what is there stays. */
  function Insert(mp: ParamMap, p: Pair): ParamMap {
    if Fold(p.key) in mp then mp else mp[Fold(p.key) := p]
  }

  function InsertAll(mp: ParamMap, ps: seq<Pair>): ParamMap {
    if ps == [] then mp else Insert(InsertAll(mp, ps[..|ps| - 1]), ps[|ps| - 1])
  }

  /** The index of the first pair whose key is `f` but for case. */
  function FirstOf(ps: seq<Pair>, f: Text): (i: nat)
    ensures i <= |ps|
    ensures i < |ps| ==> Fold(ps[i].key) == f
    ensures forall j :: 0 <= j < i ==> Fold(ps[j].key) != f
  {
    if ps == [] || Fold(ps[0].key) == f then 0 else FirstOf(ps[1..], f) + 1
  }

  lemma {:induction false} FirstOfSnoc(ps: seq<Pair>, p: Pair, f: Text)
    ensures FirstOf(ps + [p], f) == if FirstOf(ps, f) < |ps| then FirstOf(ps, f)
                                    else if Fold(p.key) == f then |ps| else |ps| + 1
  {
    var all, i := ps + [p], FirstOf(ps, f);
    forall x | 0 <= x < i ensures Fold(all[x].key) != f {
      assert all[x] == ps[x];
    }
    if i < |ps| || Fold(p.key) == f {
      FirstIsUnique(all, f, i);
    }
  }

  /** What was in the map before wins, then the first of the pairs inserted. */
  lemma {:induction false} FirstWins(mp: ParamMap, ps: seq<Pair>, f: Text)
    ensures f in InsertAll(mp, ps) <==> f in mp || FirstOf(ps, f) < |ps|
    ensures f in mp ==> InsertAll(mp, ps)[f] == mp[f]
    ensures f !in mp && FirstOf(ps, f) < |ps| ==> InsertAll(mp, ps)[f] == ps[FirstOf(ps, f)]
  {
    if ps != [] {
      var n := |ps| - 1;
      FirstWins(mp, ps[..n], f);
      FirstOfSnoc(ps[..n], ps[n], f);
      assert ps == ps[..n] + [ps[n]];
    }
  }

  lemma {:induction false} FirstIsUnique(ps: seq<Pair>, f: Text, i: nat)
    requires i < |ps| && Fold(ps[i].key) == f && forall j :: 0 <= j < i ==> Fold(ps[j].key) != f
    ensures FirstOf(ps, f) == i
  {
  }

  // ------------------------------------------------------------ the loop

  /** std::string::find; the length stands for npos. */
  function Find(s: Text, c: Byte, from: nat): (i: nat)
    requires from <= |s|
    ensures from <= i <= |s|
    ensures i < |s| ==> s[i] == c
    decreases |s| - from
  {
    if from == |s| || s[from] == c then from else Find(s, c, from + 1)
  }

  predicate Blank(c: Byte) {
    c == 32 || c == 9 || c == 13 || c == 10
  }

  function TrimLeft(s: Text): Text {
    if s != [] && Blank(s[0]) then TrimLeft(s[1..]) else s
  }

  function TrimRight(s: Text): Text {
    if s != [] && Blank(s[|s| - 1]) then TrimRight(s[..|s| - 1]) else s
  }

  /** StringUtil::Trim, applied for cookies only. */
  function Trimmed(s: Text, trim: bool): Text {
    if trim then TrimRight(TrimLeft(s)) else s
  }

  /** Trimming takes away spaces, tabs, returns and newlines at both ends and nothing else. */
  lemma {:induction false} TrimsExactly(left: Text, s: Text, right: Text)
    requires forall i :: 0 <= i < |left| ==> (left[i] as char) in {' ', '\t', '\r', '\n'}
    requires forall i :: 0 <= i < |right| ==> (right[i] as char) in {' ', '\t', '\r', '\n'}
    requires s != [] ==> (s[0] as char) !in {' ', '\t', '\r', '\n'} && (s[|s| - 1] as char) !in {' ', '\t', '\r', '\n'}
    ensures Trimmed(left + s + right, true) == s && Trimmed(left + s + right, false) == left + s + right
  {
    if s == [] {
      TrimsLeft(left + right, []);
      assert left + s + right == left + right + [];
    } else {
      assert left + s + right == left + (s + right);
      TrimsLeft(left, s + right);
      TrimsRight(s, right);
    }
  }

  lemma {:induction false} TrimsLeft(left: Text, s: Text)
    requires forall i :: 0 <= i < |left| ==> Blank(left[i])
    requires s != [] ==> !Blank(s[0])
    ensures TrimLeft(left + s) == s
  {
    if left != [] {
      assert (left + s)[1..] == left[1..] + s;
      TrimsLeft(left[1..], s);
    }
  }

  lemma {:induction false} TrimsRight(s: Text, right: Text)
    requires forall i :: 0 <= i < |right| ==> Blank(right[i])
    requires s != [] ==> !Blank(s[|s| - 1])
    ensures TrimRight(s + right) == s
    decreases |right|
  {
    if right != [] {
      var n := |right| - 1;
      assert (s + right)[..|s + right| - 1] == s + right[..n];
      TrimsRight(s, right[..n]);
    } else {
      assert s + right == s;
    }
  }

  /** The pair that the loop makes of what lies between `pos`, the equals sign at `key` and `end`. */
  function PairAt(s: Text, pos: nat, key: nat, end: nat, trim: bool): Pair
    requires pos <= key < end <= |s|
  {
    Pair(Trimmed(s[pos..key], trim), Decode(s[key + 1..end], true))
  }

  /** The pairs that the loop inserts from `pos` on. */
  function PairsFrom(s: Text, pos: nat, sep: Byte, trim: bool): seq<Pair>
    requires pos <= |s| && sep != EQUALS
    decreases |s| - pos
  {
    var key := Find(s, EQUALS, pos);
    if key == |s| then [] else
      var end := Find(s, sep, key);
      [PairAt(s, pos, key, end, trim)] + PairsAfter(s, end, sep, trim)
  }

  function PairsAfter(s: Text, end: nat, sep: Byte, trim: bool): seq<Pair>
    requires end <= |s| && sep != EQUALS
    decreases |s| - end
  {
    if end == |s| then [] else PairsFrom(s, end + 1, sep, trim)
  }

  /** Where the loop cuts, for any text: without an equals sign from `pos` on there is no pair; else the key
      ends at the first one, a separator before it belonging to the key, and the value at the first separator
      after that or at the end of the text; and the rest follows. */
  lemma {:induction false} CutsExactly(s: Text, pos: nat, key: nat, end: nat, sep: Byte, trim: bool)
    requires pos <= key <= |s| && sep != '=' as int
    requires (key < |s| ==> s[key] == '=' as int) && forall i :: pos <= i < key ==> s[i] != '=' as int
    requires key < |s| ==> key < end <= |s| && (end < |s| ==> s[end] == sep) && forall i :: key < i < end ==> s[i] != sep
    ensures PairsFrom(s, pos, sep, trim) ==
      if key == |s| then []
      else [Pair(Trimmed(s[pos..key], trim), Decode(s[key + 1..end], true))]
           + if end == |s| then [] else PairsFrom(s, end + 1, sep, trim)
  {
    FindIs(s, '=' as int, pos, key);
    if key < |s| {
      FindIs(s, sep, key, end);
      FoundPair(s, pos, key, end, sep, trim);
    }
  }

  lemma {:induction false} FoundPair(s: Text, pos: nat, key: nat, end: nat, sep: Byte, trim: bool)
    requires pos <= key < end <= |s| && sep != EQUALS && Find(s, EQUALS, pos) == key && Find(s, sep, key) == end
    ensures PairsFrom(s, pos, sep, trim) == [PairAt(s, pos, key, end, trim)] + PairsAfter(s, end, sep, trim)
  {
  }

  method ReadPair(s: Text, pos: nat, key: nat, end: nat, trim: bool) returns (p: Pair)
    requires pos <= key < end <= |s|
    ensures p == PairAt(s, pos, key, end, trim)
  {
    var value := UrlDecode(s[key + 1..end], true);
    p := Pair(Trimmed(s[pos..key], trim), value);
  }

  /** One round of PARSE_PARAM; `next` is the new `pos` unless the loop ends. */
  method Round(s: Text, pos: nat, mp: ParamMap, sep: Byte, trim: bool) returns (r: ParamMap, next: Option<nat>)
    requires pos <= |s| && sep != EQUALS
    ensures next.None? ==> r == InsertAll(mp, PairsFrom(s, pos, sep, trim))
    ensures next.Some? ==>
              && pos < next.value <= |s|
              && InsertAll(r, PairsFrom(s, next.value, sep, trim)) == InsertAll(mp, PairsFrom(s, pos, sep, trim))
  {
    r, next := mp, None;
    var key := Find(s, EQUALS, pos);
    if key < |s| {
      var end := Find(s, sep, key);
      var p := ReadPair(s, pos, key, end, trim);
      r := Insert(mp, p);
      assert r == InsertAll(mp, [p]);
      InsertAllConcat(mp, [p], PairsAfter(s, end, sep, trim));
      if end < |s| {
        next := Some(end + 1);
      }
    }
  }

  /** PARSE_PARAM. */
  method ParseParam(s: Text, mp: ParamMap, sep: Byte, trim: bool) returns (r: ParamMap)
    requires sep != EQUALS
    ensures r == InsertAll(mp, PairsFrom(s, 0, sep, trim))
  {
    r := mp;
    var pos: Option<nat> := Some(0);
    ghost var goal := InsertAll(mp, PairsFrom(s, 0, sep, trim));
    while pos.Some?
      invariant pos.Some? ==> pos.value <= |s| && InsertAll(r, PairsFrom(s, pos.value, sep, trim)) == goal
      invariant pos.None? ==> r == goal
      decreases if pos.Some? then |s| - pos.value + 1 else 0
    {
      r, pos := Round(s, pos.value, r, sep, trim);
    }
  }

  // ------------------------------------------------------------ what it parses

  /** key=UrlEncode(value) */
  function Field(p: Pair, plus: bool): Text {
    p.key + [EQUALS] + Encode(p.value, plus)
  }

  function Joined(ps: seq<Pair>, sep: Byte, plus: bool): Text {
    if ps == [] then []
    else if |ps| == 1 then Field(ps[0], plus)
    else Field(ps[0], plus) + [sep] + Joined(ps[1..], sep, plus)
  }

  /** A separator that no encoding produces: neither unreserved nor a percent or plus sign. */
  predicate GoodSeparator(sep: Byte) {
    !Unreserved(sep) && sep != PERCENT && sep != PLUS
  }

  predicate PlainKey(p: Pair, sep: Byte, trim: bool) {
    EQUALS !in p.key && sep !in p.key && Trimmed(p.key, trim) == p.key
  }

  predicate PlainKeys(ps: seq<Pair>, sep: Byte, trim: bool) {
    forall i :: 0 <= i < |ps| ==> PlainKey(ps[i], sep, trim)
  }

  lemma {:induction false} FindIs(s: Text, c: Byte, from: nat, i: nat)
    requires from <= i <= |s| && (i < |s| ==> s[i] == c) && forall j :: from <= j < i ==> s[j] != c
    ensures Find(s, c, from) == i
    decreases i - from
  {
    if from < i {
      FindIs(s, c, from + 1, i);
    }
  }

  /** A part of a part. */
  lemma {:induction false} SubPart(s: Text, f: Text, pos: nat, i: nat, j: nat)
    requires pos + |f| <= |s| && s[pos..pos + |f|] == f && i <= j <= |f|
    ensures s[pos + i..pos + j] == f[i..j]
  {
    forall k | 0 <= k < j - i ensures s[pos + i..pos + j][k] == f[i..j][k] {
      assert s[pos..pos + |f|][i + k] == s[pos + i + k];
    }
  }

  /** A field is its key, the equals sign and the encoded value. */
  lemma {:induction false} FieldIs(p: Pair, plus: bool)
    ensures var f, n := Field(p, plus), |p.key|;
            n < |f| && f[..n] == p.key && f[n] == EQUALS && f[n + 1..] == Encode(p.value, plus)
  {
  }

  /** The parts of the field that stands at `pos`. */
  lemma {:induction false} FieldParts(s: Text, pos: nat, p: Pair, plus: bool)
    requires pos + |Field(p, plus)| <= |s| && s[pos..pos + |Field(p, plus)|] == Field(p, plus)
    ensures var k, end := pos + |p.key|, pos + |Field(p, plus)|;
            && k < end && s[pos..k] == p.key && s[k] == EQUALS && s[k + 1..end] == Encode(p.value, plus)
  {
    var f, n := Field(p, plus), |p.key|;
    FieldIs(p, plus);
    SubPart(s, f, pos, 0, n);
    SubPart(s, f, pos, n, n + 1);
    SubPart(s, f, pos, n + 1, |f|);
    assert s[pos + n] == s[pos + n..pos + (n + 1)][0] == f[n..n + 1][0];
    assert f[..n] == f[0..n] && f[n + 1..] == f[n + 1..|f|];
  }

  lemma {:induction false} FindAfter(s: Text, c: Byte, from: nat, i: nat)
    requires from <= i <= |s| && c !in s[from..i] && (i < |s| ==> s[i] == c)
    ensures Find(s, c, from) == i
  {
    forall j | from <= j < i ensures s[j] != c {
      assert s[from..i][j - from] == s[j];
    }
    FindIs(s, c, from, i);
  }

  lemma {:induction false} NoSeparator(value: Text, sep: Byte, plus: bool)
    requires GoodSeparator(sep)
    ensures sep !in Encode(value, plus)
  {
    if sep in Encode(value, plus) {
      EncodedAlphabet(value, plus, sep);
    }
  }

  lemma {:induction false} NotAhead(s: Text, c: Byte, k: nat, end: nat)
    requires k < end <= |s| && s[k] != c && c !in s[k + 1..end]
    ensures c !in s[k..end]
  {
    assert s[k..end] == [s[k]] + s[k + 1..end];
  }

  /** What the loop finds at a field, followed by the end or a separator. */
  lemma {:induction false} FieldFinds(s: Text, pos: nat, p: Pair, sep: Byte, trim: bool, plus: bool)
    requires GoodSeparator(sep) && sep != EQUALS && PlainKey(p, sep, trim)
    requires pos + |Field(p, plus)| <= |s| && s[pos..pos + |Field(p, plus)|] == Field(p, plus)
    requires pos + |Field(p, plus)| < |s| ==> s[pos + |Field(p, plus)|] == sep
    ensures var k, end := pos + |p.key|, pos + |Field(p, plus)|;
            && k < end && Find(s, EQUALS, pos) == k && Find(s, sep, k) == end
            && PairAt(s, pos, k, end, trim) == p
  {
    var k, end := pos + |p.key|, pos + |Field(p, plus)|;
    FieldParts(s, pos, p, plus);
    NoSeparator(p.value, sep, plus);
    PartsFind(s, pos, k, end, sep, p.key, Encode(p.value, plus));
    RoundTripExactly(p.value, plus, true);
    PartsPair(s, pos, k, end, trim, p, Encode(p.value, plus));
  }

  lemma {:induction false} PartsFind(s: Text, pos: nat, k: nat, end: nat, sep: Byte, key: Text, value: Text)
    requires pos <= k < end <= |s| && s[pos..k] == key && s[k] == EQUALS && s[k + 1..end] == value
    requires sep != EQUALS && EQUALS !in key && sep !in value && (end < |s| ==> s[end] == sep)
    ensures Find(s, EQUALS, pos) == k && Find(s, sep, k) == end
  {
    FindAfter(s, EQUALS, pos, k);
    NotAhead(s, sep, k, end);
    FindAfter(s, sep, k, end);
  }

  lemma {:induction false} PartsPair(s: Text, pos: nat, k: nat, end: nat, trim: bool, p: Pair, value: Text)
    requires pos <= k < end <= |s| && s[pos..k] == p.key && s[k + 1..end] == value
    requires Trimmed(p.key, trim) == p.key && Decode(value, true) == p.value
    ensures PairAt(s, pos, k, end, trim) == p
  {
  }

  lemma {:induction false} ParseField(s: Text, pos: nat, p: Pair, sep: Byte, trim: bool, plus: bool)
    requires GoodSeparator(sep) && sep != EQUALS && PlainKey(p, sep, trim)
    requires pos + |Field(p, plus)| <= |s| && s[pos..pos + |Field(p, plus)|] == Field(p, plus)
    requires pos + |Field(p, plus)| < |s| ==> s[pos + |Field(p, plus)|] == sep
    ensures PairsFrom(s, pos, sep, trim) == [p] + PairsAfter(s, pos + |Field(p, plus)|, sep, trim)
  {
    FieldFinds(s, pos, p, sep, trim, plus);
  }

  /** One field between `pre` and `post`, which is empty or starts with a separator. */
  lemma {:induction false} ParseBetween(s: Text, pre: Text, p: Pair, post: Text, sep: Byte, trim: bool, plus: bool)
    requires GoodSeparator(sep) && sep != EQUALS && PlainKey(p, sep, trim)
    requires s == pre + Field(p, plus) + post && (post != [] ==> post[0] == sep)
    ensures PairsFrom(s, |pre|, sep, trim) == [p] + PairsAfter(s, |pre| + |Field(p, plus)|, sep, trim)
  {
    Between(pre, Field(p, plus), post);
    ParseField(s, |pre|, p, sep, trim, plus);
  }

  lemma {:induction false} Between(pre: Text, f: Text, post: Text)
    ensures var s := pre + f + post;
            s[|pre|..|pre| + |f|] == f && (|pre| + |f| < |s| ==> post != [] && s[|pre| + |f|] == post[0])
  {
  }

  lemma {:induction false} ParseTail(s: Text, pre: Text, pos: nat, ps: seq<Pair>, sep: Byte, trim: bool, plus: bool)
    requires GoodSeparator(sep) && sep != EQUALS && PlainKeys(ps, sep, trim)
    requires s == pre + Joined(ps, sep, plus) && pos == |pre|
    ensures PairsFrom(s, pos, sep, trim) == ps
    decreases |ps|
  {
    if ps == [] {
      ParseNothing(s, pos, sep, trim);
    } else if |ps| == 1 {
      ParseLast(s, pre, pos, ps[0], sep, trim, plus);
    } else {
      var pre', rest := SplitJoined(s, pre, ps, sep, trim, plus);
      ParseTail(s, pre', |pre'|, ps[1..], sep, trim, plus);
      ParseMore(s, pre, pos, ps[0], |pre'|, rest, ps[1..], sep, trim, plus);
    }
  }

  lemma {:induction false} SplitJoined(s: Text, pre: Text, ps: seq<Pair>, sep: Byte, trim: bool, plus: bool)
    returns (pre': Text, rest: Text)
    requires |ps| > 1 && s == pre + Joined(ps, sep, plus) && PlainKeys(ps, sep, trim)
    ensures s == pre + Field(ps[0], plus) + ([sep] + rest)
    ensures s == pre' + Joined(ps[1..], sep, plus) && |pre'| == |pre| + |Field(ps[0], plus)| + 1
    ensures PlainKey(ps[0], sep, trim) && PlainKeys(ps[1..], sep, trim) && ps == [ps[0]] + ps[1..]
  {
    rest := Joined(ps[1..], sep, plus);
    pre' := pre + Field(ps[0], plus) + [sep];
    Regroup(pre, Field(ps[0], plus), sep, rest);
  }

  lemma {:induction false} ParseNothing(s: Text, pos: nat, sep: Byte, trim: bool)
    requires pos == |s| && sep != EQUALS
    ensures PairsFrom(s, pos, sep, trim) == []
  {
  }

  lemma {:induction false} ParseLast(s: Text, pre: Text, pos: nat, p: Pair, sep: Byte, trim: bool, plus: bool)
    requires GoodSeparator(sep) && sep != EQUALS && PlainKey(p, sep, trim)
    requires s == pre + Field(p, plus) && pos == |pre|
    ensures PairsFrom(s, pos, sep, trim) == [p]
  {
    assert s == pre + Field(p, plus) + [];
    ParseBetween(s, pre, p, [], sep, trim, plus);
  }

  lemma {:induction false} ParseMore(
      s: Text, pre: Text, pos: nat, p: Pair, next: nat, rest: Text, ps: seq<Pair>, sep: Byte, trim: bool, plus: bool)
    requires GoodSeparator(sep) && sep != EQUALS && PlainKey(p, sep, trim) && pos == |pre|
    requires s == pre + Field(p, plus) + ([sep] + rest)
    requires next == pos + |Field(p, plus)| + 1 <= |s| && PairsFrom(s, next, sep, trim) == ps
    ensures PairsFrom(s, pos, sep, trim) == [p] + ps
  {
    ParseBetween(s, pre, p, [sep] + rest, sep, trim, plus);
    AfterIs(s, next - 1, next, sep, trim);
  }

  lemma {:induction false} AfterIs(s: Text, end: nat, next: nat, sep: Byte, trim: bool)
    requires next == end + 1 <= |s| && sep != EQUALS
    ensures PairsAfter(s, end, sep, trim) == PairsFrom(s, next, sep, trim)
  {
  }

  lemma {:induction false} Regroup(pre: Text, f: Text, sep: Byte, rest: Text)
    ensures pre + f + ([sep] + rest) == pre + (f + [sep] + rest) == (pre + f + [sep]) + rest
    ensures |pre + f + [sep]| == |pre| + |f| + 1
  {
  }

  /** Joined `key=UrlEncode(value)` fields are parsed into those pairs, whichever way spaces were written. */
  lemma {:induction false} ParsesJoined(ps: seq<Pair>, sep: Byte, trim: bool, plus: bool)
    requires GoodSeparator(sep) && sep != EQUALS && PlainKeys(ps, sep, trim)
    ensures PairsFrom(Joined(ps, sep, plus), 0, sep, trim) == ps
  {
    var s := Joined(ps, sep, plus);
    assert s == [] + s;
    ParseTail(s, [], 0, ps, sep, trim, plus);
  }

  // ------------------------------------------------------------ the request

  const AMPERSAND: Byte := 38
  const SEMICOLON: Byte := 59

  class HttpRequest {
    const query: Text
    const body: Text
    const cookie: Text
    const formEncoded: bool              // the content type names application/x-www-form-urlencoded
    var params: ParamMap
    var cookies: ParamMap
    var queryParsed: bool                // bits 1, 2 and 4 of m_parserParamFlag
    var bodyParsed: bool
    var cookiesParsed: bool

    constructor (query: Text, body: Text, cookie: Text, formEncoded: bool)
      ensures this.query == query && this.body == body && this.cookie == cookie && this.formEncoded == formEncoded
      ensures params == map[] && cookies == map[] && !queryParsed && !bodyParsed && !cookiesParsed
    {
      this.query, this.body, this.cookie, this.formEncoded := query, body, cookie, formEncoded;
      params, cookies := map[], map[];
      queryParsed, bodyParsed, cookiesParsed := false, false, false;
    }

    /** Only the first call does anything. */
    method InitQueryParam()
      modifies this`params, this`queryParsed
      ensures queryParsed
      ensures params == if old(queryParsed) then old(params)
                        else InsertAll(old(params), PairsFrom(query, 0, '&' as int, false))
    {
      if queryParsed {
        return;
      }
      params := ParseParam(query, params, AMPERSAND, false);
      queryParsed := true;
    }

    method InitBodyParam()
      modifies this`params, this`bodyParsed
      ensures bodyParsed
      ensures params == if old(bodyParsed) || !formEncoded then old(params)
                        else InsertAll(old(params), PairsFrom(body, 0, '&' as int, false))
    {
      if bodyParsed {
        return;
      }
      if formEncoded {
        params := ParseParam(body, params, AMPERSAND, false);
      }
      bodyParsed := true;
    }

    method InitCookies()
      modifies this`cookies, this`cookiesParsed
      ensures cookiesParsed
      ensures cookies == if old(cookiesParsed) then old(cookies)
                         else InsertAll(old(cookies), PairsFrom(cookie, 0, ';' as int, true))
    {
      if cookiesParsed {
        return;
      }
      if cookie != [] {
        cookies := ParseParam(cookie, cookies, SEMICOLON, true);
      }
      cookiesParsed := true;
    }

    /** `initParam`: query, then body, then cookies, each once. */
    method Init()
      modifies this
      ensures queryParsed && bodyParsed && cookiesParsed
      ensures var withQuery := if old(queryParsed) then old(params)
                               else InsertAll(old(params), PairsFrom(query, 0, '&' as int, false));
              params == if old(bodyParsed) || !formEncoded then withQuery
                        else InsertAll(withQuery, PairsFrom(body, 0, '&' as int, false))
      ensures cookies == if old(cookiesParsed) then old(cookies)
                         else InsertAll(old(cookies), PairsFrom(cookie, 0, ';' as int, true))
    {
      InitQueryParam();
      InitBodyParam();
      InitCookies();
    }
  }

  /** Query and body fields that were encoded come back, a query field hiding a body field of its name. */
  lemma {:induction false} EncodedFieldsReturn(qs: seq<Pair>, bs: seq<Pair>, plus: bool, f: Text)
    requires PlainKeys(qs, AMPERSAND, false) && PlainKeys(bs, AMPERSAND, false)
    ensures var params := InsertAll(InsertAll(map[], PairsFrom(Joined(qs, AMPERSAND, plus), 0, AMPERSAND, false)),
                                    PairsFrom(Joined(bs, AMPERSAND, plus), 0, AMPERSAND, false));
            && (f in params <==> FirstOf(qs + bs, f) < |qs + bs|)
            && (f in params ==> params[f] == (qs + bs)[FirstOf(qs + bs, f)])
  {
    ParsesJoined(qs, AMPERSAND, false, plus);
    ParsesJoined(bs, AMPERSAND, false, plus);
    InsertAllConcat(map[], qs, bs);
    FirstWins(map[], qs + bs, f);
  }

  lemma {:induction false} InsertAllConcat(mp: ParamMap, a: seq<Pair>, b: seq<Pair>)
    ensures InsertAll(mp, a + b) == InsertAll(InsertAll(mp, a), b)
  {
    if b == [] {
      assert a + b == a;
    } else {
      var n := |b| - 1;
      InsertAllConcat(mp, a, b[..n]);
      assert (a + b)[..|a + b| - 1] == a + b[..n];
    }
  }
}
