/**
 * The string handling of `cidtosdf.ts`: reading the PubChem compound id out
 * of one SDF record (`getCidFromSdf`), and what `cidsToSdfs` does around its
 * HTTP request: the early return for no ids, the de-duplicated id list of the
 * URL, and the split of the reply into records kept by their id.
 */
module PubChem {
  import opened Wrappers
  import opened JsString

  // ---------------------------------------------------------------- getCidFromSdf

  /** The data-item header line that precedes the id: `> <PUBCHEM_COMPOUND_CID>` and a newline. */
  const CidTag: string := "> <PUBCHEM_COMPOUND_CID>\n"

  /** The pattern `tag(\d+)` matches at `p`: the tag, then at least one decimal digit. */
  predicate TagMatchAt(s: string, tag: string, p: nat) {
    p + |tag| < |s| && s[p..p + |tag|] == tag && IsDigit(s[p + |tag|], 10)
  }

  /** Where the regular expression search, trying `from`, `from + 1`, ... in turn, first matches. */
  function FirstTagMatch(s: string, tag: string, from: nat): (r: Option<nat>)
    ensures r.Some? ==> from <= r.value && TagMatchAt(s, tag, r.value)
    ensures forall q: nat :: from <= q && (r.None? || q < r.value) ==> !TagMatchAt(s, tag, q)
    decreases |s| - from
  {
    if from + |tag| >= |s| then None
    else if TagMatchAt(s, tag, from) then Some(from)
    else FirstTagMatch(s, tag, from + 1)
  }

  /** The text `(\d+)` captures at a match: the whole run of digits after the tag. */
  function CapturedDigits(s: string, tag: string, p: nat): (ds: string)
    requires TagMatchAt(s, tag, p)
    ensures var start := p + |tag|;
      && 0 < |ds| && start + |ds| <= |s| && ds == s[start..start + |ds|]
      && (forall k :: 0 <= k < |ds| ==> IsDigit(ds[k], 10))
      && (start + |ds| == |s| || !IsDigit(s[start + |ds|], 10))
  {
    var rest := s[p + |tag|..];
    DigitRunIsMaximal(rest, 10);
    rest[..DigitRun(rest, 10)]
  }

  /** `s.match(/tag(\d+)/)` and `parseInt` of the capture, or `None` for no match. */
  function IdAfterTag(s: string, tag: string): (r: Option<int>)
    ensures r.None? <==> forall p: nat :: !TagMatchAt(s, tag, p)
    ensures r.Some? ==> r.value >= 0
  {
    match FirstTagMatch(s, tag, 0)
    case None => None
    case Some(p) =>
      var ds := CapturedDigits(s, tag, p);
      ParseInt10OfDigits(ds);
      ParseInt10(ds)
  }

  /**
   * `getCidFromSdf`: `parseInt` of the digits captured at the first match, or
   * `null` (`None`) when nothing matches. The id is never NaN or negative.
   */
  function CidFromSdf(block: string): (r: Option<int>)
    ensures r.None? <==> forall p: nat :: !TagMatchAt(block, CidTag, p)
    ensures r.Some? ==> r.value >= 0
  {
    IdAfterTag(block, CidTag)
  }

  /**
   * The id is read at the first match only: when the tag at `p` is followed
   * by the digits `ds` and then a non-digit or the end, and no match starts
   * before `p`, the id is the decimal value of `ds`, whatever follows.
   */
  lemma IdAtFirstMatch(block: string, tag: string, p: nat, ds: string)
    requires TagMatchAt(block, tag, p) && forall q: nat :: q < p ==> !TagMatchAt(block, tag, q)
    requires var start := p + |tag|;
      && start + |ds| <= |block| && block[start..start + |ds|] == ds
      && (forall k :: 0 <= k < |ds| ==> IsDigit(ds[k], 10))
      && (start + |ds| == |block| || !IsDigit(block[start + |ds|], 10))
    ensures IdAfterTag(block, tag) == Some(DigitsValue(ds, 10))
  {
    assert FirstTagMatch(block, tag, 0) == Some(p);
    CapturedAt(block, tag, p, ds);
    ParseInt10OfDigits(ds);
  }

  /** The capture at a match is the digit run that ends at the first non-digit. */
  lemma CapturedAt(block: string, tag: string, p: nat, ds: string)
    requires TagMatchAt(block, tag, p)
    requires var start := p + |tag|;
      && start + |ds| <= |block| && block[start..start + |ds|] == ds
      && (forall k :: 0 <= k < |ds| ==> IsDigit(ds[k], 10))
      && (start + |ds| == |block| || !IsDigit(block[start + |ds|], 10))
    ensures CapturedDigits(block, tag, p) == ds
  {
    var start := p + |tag|;
    var rest := block[start..];
    assert rest[..|ds|] == ds;
    forall k | 0 <= k < |ds|
      ensures IsDigit(rest[k], 10)
    {
      assert rest[k] == ds[k];
    }
    assert |ds| < |rest| ==> rest[|ds|] == block[start + |ds|];
    DigitRunOf(rest, |ds|);
  }

  /**
   * Writing an id item after a header in which the tag's first character does
   * not occur, and reading it back, gives the id.
   */
  lemma IdOfItem(head: string, tag: string, id: nat, tail: string)
    requires |tag| > 0 && tag[0] !in head
    requires tail == [] || !IsDigit(tail[0], 10)
    ensures IdAfterTag(head + tag + NatToString(id) + tail, tag) == Some(id)
  {
    var block := head + tag + NatToString(id) + tail;
    var ds := NatToString(id);
    var start := |head| + |tag|;
    assert block[|head|..start] == tag;
    assert block[start..start + |ds|] == ds;
    assert block[start] == ds[0];
    forall q: nat | q < |head|
      ensures !TagMatchAt(block, tag, q)
    {
      assert block[q] == head[q] != tag[0];
      assert q + |tag| <= |block| ==> block[q..q + |tag|][0] == block[q];
    }
    assert tail != [] ==> block[start + |ds|] == tail[0];
    IdAtFirstMatch(block, tag, |head|, ds);
    DigitsValueOfNatToString(id);
  }

  /** The first CID item of a record is read back, when no `>` comes before it: `getCidFromSdf` inverts writing a CID. */
  lemma CidOfRecord(head: string, cid: nat, tail: string)
    requires '>' !in head
    requires tail == [] || !IsDigit(tail[0], 10)
    ensures CidFromSdf(head + CidTag + NatToString(cid) + tail) == Some(cid)
  {
    IdOfItem(head, CidTag, cid, tail);
  }

  /** The CID is the one read at the first match (see `IdAtFirstMatch`). */
  lemma CidAtFirstMatch(block: string, p: nat, ds: string)
    requires TagMatchAt(block, CidTag, p) && forall q: nat :: q < p ==> !TagMatchAt(block, CidTag, q)
    requires var start := p + |CidTag|;
      && start + |ds| <= |block| && block[start..start + |ds|] == ds
      && (forall k :: 0 <= k < |ds| ==> IsDigit(ds[k], 10))
      && (start + |ds| == |block| || !IsDigit(block[start + |ds|], 10))
    ensures CidFromSdf(block) == Some(DigitsValue(ds, 10))
  {
    IdAtFirstMatch(block, CidTag, p, ds);
  }

  /** An id reads as zero exactly when every captured digit is `0`. */
  lemma {:induction false} DigitsZero(ds: string)
    requires forall k :: 0 <= k < |ds| ==> IsDigit(ds[k], 10)
    ensures DigitsValue(ds, 10) == 0 <==> forall k :: 0 <= k < |ds| ==> ds[k] == '0'
  {
    if ds != [] {
      var front := ds[..|ds| - 1];
      DigitsZero(front);
      assert forall k :: 0 <= k < |front| ==> front[k] == ds[k];
    }
  }

  // ---------------------------------------------------------------- the request

  /** `[...new Set(cids)]`: every id once, in the order of first occurrence. */
  function Unique(cids: seq<int>): (r: seq<int>)
    ensures forall x :: x in r <==> x in cids
    ensures forall i, j :: 0 <= i < j < |r| ==> r[i] != r[j]
  {
    if cids == [] then []
    else
      var u := Unique(cids[..|cids| - 1]);
      var x := cids[|cids| - 1];
      if x in u then u else u + [x]
  }

  /** Index of the first occurrence of `x` in `s`. */
  function FirstIndex(s: seq<int>, x: int): (i: nat)
    requires x in s
    ensures i < |s| && s[i] == x && forall k :: 0 <= k < i ==> s[k] != x
  {
    if s[0] == x then 0
    else
      var j := FirstIndex(s[1..], x);
      assert forall k :: 1 <= k <= j ==> s[k] == s[1..][k - 1];
      j + 1
  }

  /** An occurrence with no earlier one is the first. */
  lemma FirstIndexUnique(s: seq<int>, x: int, i: nat)
    requires i < |s| && s[i] == x && forall k :: 0 <= k < i ==> s[k] != x
    ensures FirstIndex(s, x) == i
  {
    var j := FirstIndex(s, x);
    assert s[i] == x && s[j] == x;
  }

  /** A first occurrence is unaffected by what is appended after it. */
  lemma FirstIndexOfPrefix(s: seq<int>, y: int, x: int)
    requires x in s
    ensures FirstIndex(s + [y], x) == FirstIndex(s, x)
  {
    var i := FirstIndex(s, x);
    forall k | 0 <= k < i
      ensures (s + [y])[k] != x
    {
      assert (s + [y])[k] == s[k];
    }
    FirstIndexUnique(s + [y], x, i);
  }

  /** The de-duplicated ids keep the order of their first occurrences. */
  lemma {:induction false} UniqueKeepsFirstOrder(cids: seq<int>)
    ensures forall i, j :: 0 <= i < j < |Unique(cids)| ==> FirstIndex(cids, Unique(cids)[i]) < FirstIndex(cids, Unique(cids)[j])
  {
    if cids != [] {
      var front, x := cids[..|cids| - 1], cids[|cids| - 1];
      assert cids == front + [x];
      var u := Unique(front);
      UniqueKeepsFirstOrder(front);
      forall i | 0 <= i < |u|
        ensures FirstIndex(cids, u[i]) == FirstIndex(front, u[i]) < |front|
      {
        assert u[i] in front;
        FirstIndexOfPrefix(front, x, u[i]);
      }
      if x !in u {
        forall k | 0 <= k < |front|
          ensures cids[k] != x
        {
          assert cids[k] == front[k];
        }
        FirstIndexUnique(cids, x, |front|);
        var r := u + [x];
        assert Unique(cids) == r;
        forall i, j | 0 <= i < j < |r|
          ensures FirstIndex(cids, r[i]) < FirstIndex(cids, r[j])
        {
          assert r[i] == u[i];
          assert j < |u| ==> r[j] == u[j];
        }
      }
    }
  }

  /** Ids that are already distinct are kept as they are. */
  lemma {:induction false} UniqueOfDistinct(cids: seq<int>)
    requires forall i, j :: 0 <= i < j < |cids| ==> cids[i] != cids[j]
    ensures Unique(cids) == cids
  {
    if cids != [] {
      var front, x := cids[..|cids| - 1], cids[|cids| - 1];
      UniqueOfDistinct(front);
      assert x !in front;
    }
  }

  /** `uniqueCids.join(',')`: the decimal ids, comma-separated, as the request path carries them. */
  function CidList(cids: seq<int>): string {
    var u := Unique(cids);
    Join(seq(|u|, k requires 0 <= k < |u| => IntToString(u[k])), ",")
  }

  /** No decimal id contains a comma. */
  lemma NoCommaIn(n: int)
    ensures ',' !in IntToString(n)
  {
    var digits := NatToString(if n < 0 then -n else n);
    assert ',' !in digits;
  }

  /**
   * The id list reads back: split at the commas, it has one field per
   * distinct id, and `parseInt` of field `k` is the `k`-th distinct id.
   */
  lemma CidListReadsBack(cids: seq<int>)
    requires |cids| > 0
    ensures var fields := Split(CidList(cids), ',');
      && |fields| == |Unique(cids)|
      && forall k :: 0 <= k < |fields| ==> ParseInt10(fields[k]) == Some(Unique(cids)[k])
  {
    var u := Unique(cids);
    assert cids[0] in u;
    var pieces := seq(|u|, k requires 0 <= k < |u| => IntToString(u[k]));
    forall k | 0 <= k < |u|
      ensures ',' !in pieces[k] && ParseInt10(pieces[k]) == Some(u[k])
    {
      NoCommaIn(u[k]);
      ParseInt10OfIntToString(u[k]);
    }
    SplitJoin(pieces, ',');
  }

  // ---------------------------------------------------------------- splitting the reply

  /** The record separator the reply is split at: a newline and `$$$$`. */
  const Delimiter: string := "\n$$$$"

  predicate DelimiterAt(s: string, q: nat) {
    q + |Delimiter| <= |s| && s[q..q + |Delimiter|] == Delimiter
  }

  ghost predicate NoDelimiter(s: string) {
    forall q: nat :: !DelimiterAt(s, q)
  }

  function FirstDelimiter(s: string, from: nat): (r: Option<nat>)
    ensures r.Some? ==> from <= r.value && DelimiterAt(s, r.value)
    ensures forall q: nat :: from <= q && (r.None? || q < r.value) ==> !DelimiterAt(s, q)
    decreases |s| - from
  {
    if from + |Delimiter| > |s| then None
    else if DelimiterAt(s, from) then Some(from)
    else FirstDelimiter(s, from + 1)
  }

  /** Where a separator found at `q` ends: the `\n?` after `$$$$` takes a newline when there is one. */
  function DelimiterEnd(s: string, q: nat): (e: nat)
    requires DelimiterAt(s, q)
    ensures q + |Delimiter| <= e <= |s|
  {
    var e := q + |Delimiter|;
    if e < |s| && s[e] == '\n' then e + 1 else e
  }

  /** The text before the first separator contains none. */
  lemma NoDelimiterBefore(s: string, n: nat)
    requires n <= |s| && forall q: nat :: q < n ==> !DelimiterAt(s, q)
    ensures NoDelimiter(s[..n])
  {
    forall q: nat
      ensures !DelimiterAt(s[..n], q)
    {
      if q + |Delimiter| <= n {
        assert s[..n][q..q + |Delimiter|] == s[q..q + |Delimiter|];
        assert !DelimiterAt(s, q);
      }
    }
  }

  /** `s.split(/\n\$\$\$\$\n?/)`: the text between separators, none of it containing one. */
  function SplitRecords(s: string): (r: seq<string>)
    ensures |r| >= 1
    ensures forall i :: 0 <= i < |r| ==> NoDelimiter(r[i])
    decreases |s|
  {
    match FirstDelimiter(s, 0)
    case None => [s]
    case Some(q) =>
      NoDelimiterBefore(s, q);
      [s[..q]] + SplitRecords(s[DelimiterEnd(s, q)..])
  }

  /** How PubChem writes a multi-record reply: `$$$$` on a line of its own between records. */
  const Separator: string := "\n$$$$\n"

  /** No separator starts inside a record that contains none, even one running into the next separator. */
  lemma NoDelimiterBeforeSeparator(b: string, rest: string, q: nat)
    requires NoDelimiter(b) && q < |b|
    ensures !DelimiterAt(b + Separator + rest, q)
  {
    var s := b + Separator + rest;
    if q + |Delimiter| <= |b| {
      assert s[q..q + |Delimiter|] == b[q..q + |Delimiter|];
      assert !DelimiterAt(b, q);
    } else if q + |Delimiter| <= |s| {
      assert s[q..q + |Delimiter|][|b| - q] == s[|b|] == '\n';
    }
  }

  /** Splitting records joined by the separator gives the records back. */
  lemma {:induction false} SplitJoinedRecords(blocks: seq<string>)
    requires |blocks| >= 1 && forall i :: 0 <= i < |blocks| ==> NoDelimiter(blocks[i])
    ensures SplitRecords(Join(blocks, Separator)) == blocks
    decreases |blocks|
  {
    if |blocks| == 1 {
      assert FirstDelimiter(blocks[0], 0).None?;
    } else {
      var b, rest := blocks[0], Join(blocks[1..], Separator);
      var s := b + Separator + rest;
      assert s == Join(blocks, Separator);
      assert s[|b|..|b| + |Separator|] == Separator;
      assert s[|b|..|b| + |Delimiter|] == Separator[..|Delimiter|] == Delimiter;
      forall q: nat | q < |b|
        ensures !DelimiterAt(s, q)
      {
        NoDelimiterBeforeSeparator(b, rest, q);
      }
      assert DelimiterAt(s, |b|);
      assert FirstDelimiter(s, 0) == Some(|b|);
      assert s[|b| + |Delimiter|] == '\n';
      assert s[..|b|] == b && s[|b| + |Separator|..] == rest;
      SplitJoinedRecords(blocks[1..]);
    }
  }

  // ---------------------------------------------------------------- keeping records by id

  /** One element of the result: the id and the record it was read from. */
  datatype CidSdf = CidSdf(cid: int, sdf: string)

  /** The `map` and `filter` step for one record: kept when it is non-empty and its id is truthy. */
  function EntryOf(block: string): (r: Option<CidSdf>)
    ensures r.Some? ==> r.value.sdf == block && r.value.cid > 0 && CidFromSdf(block) == Some(r.value.cid)
    ensures r.None? <==> CidFromSdf(block) == None || CidFromSdf(block) == Some(0)
  {
    if block == "" then None
    else
      match CidFromSdf(block)
      case None => None
      case Some(cid) => if cid != 0 then Some(CidSdf(cid, block)) else None
  }

  /** The records that are kept, in order. */
  function Entries(blocks: seq<string>): (r: seq<CidSdf>)
    ensures |r| <= |blocks|
    ensures forall k :: 0 <= k < |r| ==> r[k].sdf in blocks && r[k].cid > 0 && CidFromSdf(r[k].sdf) == Some(r[k].cid)
  {
    if blocks == [] then []
    else
      var front := blocks[..|blocks| - 1];
      var e := EntryOf(blocks[|blocks| - 1]);
      Entries(front) + (if e.Some? then [e.value] else [])
  }

  /** Records are kept independently of each other and in their order: `Entries` distributes over `+`. */
  lemma {:induction false} EntriesAppend(a: seq<string>, b: seq<string>)
    ensures Entries(a + b) == Entries(a) + Entries(b)
    decreases |b|
  {
    if b == [] {
      assert a + b == a;
    } else {
      var front := b[..|b| - 1];
      assert (a + b)[..|a + b| - 1] == a + front;
      EntriesAppend(a, front);
    }
  }

  /** Every record with a non-zero id is kept, with that id. */
  lemma {:induction false} EntriesComplete(blocks: seq<string>, i: nat)
    requires i < |blocks| && CidFromSdf(blocks[i]).Some? && CidFromSdf(blocks[i]).value != 0
    ensures CidSdf(CidFromSdf(blocks[i]).value, blocks[i]) in Entries(blocks)
  {
    var front := blocks[..|blocks| - 1];
    if i < |blocks| - 1 {
      assert front[i] == blocks[i];
      EntriesComplete(front, i);
    }
  }

  /** The HTTP exchange: the body of a successful reply to the request for an id list, or `None` for a failed one. */
  type Fetch = string -> Option<string>

  /**
   * `cidsToSdfs`: no request and no result for a missing or empty id list
   * or a failed request; otherwise the records of the trimmed reply that
   * carry a non-zero id, each with that id.
   */
  function CidsToSdfs(cids: Option<seq<int>>, fetch: Fetch): (r: seq<CidSdf>)
    ensures cids.None? || cids.value == [] ==> r == []
    ensures forall k :: 0 <= k < |r| ==> r[k].cid > 0 && CidFromSdf(r[k].sdf) == Some(r[k].cid) && NoDelimiter(r[k].sdf)
  {
    if cids.None? || |cids.value| == 0 then []
    else
      match fetch(CidList(cids.value))
      case None => []
      case Some(text) => Entries(SplitRecords(Trim(text)))
  }
}
