/** Share-id generation by rejection sampling, internal/results/store_id.go, and the
    id check of internal/api/results_handler.go. */
module ResultIds {
  const ID_LENGTH := 8
  const ID_BASE := 62
  const MAX_BYTE := 256 - 256 % ID_BASE
  const BLOCK_LENGTH := 2 * ID_LENGTH

  type Byte = b: int | 0 <= b < 256

  /** Position `k` of the charset: the digits, then lower case, then upper case. */
  function IdChar(k: nat): char
    requires k < ID_BASE
  {
    if k < 10 then '0' + k as char
    else if k < 36 then 'a' + (k - 10) as char
    else 'A' + (k - 36) as char
  }

  predicate IsAlnum(c: char) { '0' <= c <= '9' || 'a' <= c <= 'z' || 'A' <= c <= 'Z' }

  predicate ValidResultID(id: string) {
    |id| == ID_LENGTH && forall i | 0 <= i < |id| :: IsAlnum(id[i])
  }

  function IdOf(bytes: seq<Byte>): string {
    seq(|bytes|, i requires 0 <= i < |bytes| => IdChar(bytes[i] % ID_BASE))
  }

  /** The bytes below 248: the largest range on which every character is hit equally often. */
  function Accepted(stream: seq<Byte>): seq<Byte> {
    if stream == [] then []
    else
      var init, last := stream[..|stream| - 1], stream[|stream| - 1];
      if last < MAX_BYTE then Accepted(init) + [last] else Accepted(init)
  }

  // ----- generation -----

  type Block = b: seq<Byte> | |b| == BLOCK_LENGTH witness seq(BLOCK_LENGTH, i => 0)

  /** One call to the entropy source. */
  datatype Read = Bytes(block: Block) | Failed

  datatype Result = Ok(id: string) | Err

  /** The bytes delivered before the source first fails. */
  function Stream(answers: seq<Read>): seq<Byte> {
    if answers == [] || answers[0].Failed? then [] else answers[0].block + Stream(answers[1..])
  }

  lemma {:induction false} StreamExtends(answers: seq<Read>, n: nat)
    requires n < |answers| && forall k | 0 <= k < n :: answers[k].Bytes?
    ensures Stream(answers[..n]) <= Stream(answers)
    ensures answers[n].Bytes? ==> Stream(answers[..n + 1]) == Stream(answers[..n]) + answers[n].block
    ensures answers[n].Failed? ==> Stream(answers) == Stream(answers[..n])
  {
    if n == 0 {
      assert answers[..0] == [];
      assert answers[..1][1..] == [];
    } else {
      assert answers[..n][1..] == answers[1..][..n - 1];
      assert answers[..n + 1][1..] == answers[1..][..n];
      StreamExtends(answers[1..], n - 1);
    }
  }

  lemma {:induction false} AcceptedOfPrefix(prefix: seq<Byte>, whole: seq<Byte>)
    requires prefix <= whole
    ensures Accepted(prefix) <= Accepted(whole)
    decreases |whole|
  {
    if |prefix| < |whole| {
      AcceptedOfPrefix(prefix, whole[..|whole| - 1]);
    } else {
      assert prefix == whole;
    }
  }

  /** The id is the first eight accepted bytes of the stream, wherever the 16-byte
      blocks fall; it fails only if the source fails first. For termination the source
      must eventually fail or deliver eight accepted bytes. */
  method GenerateID(answers: seq<Read>) returns (result: Result)
    requires |Accepted(Stream(answers))| >= ID_LENGTH || exists k :: 0 <= k < |answers| && answers[k].Failed?
    ensures var accepted := Accepted(Stream(answers));
            if |accepted| >= ID_LENGTH then result == Ok(IdOf(accepted[..ID_LENGTH])) else result == Err
  {
    hide Accepted, IdOf, Stream, IdChar;
    NothingTaken();
    var b := new char[ID_LENGTH];
    var i := 0;
    var n := 0;
    ghost var seen: seq<Byte> := [];
    while i < ID_LENGTH
      invariant 0 <= n <= |answers| && forall k | 0 <= k < n :: answers[k].Bytes?
      invariant 0 <= i <= ID_LENGTH
      invariant i < ID_LENGTH ==> seen == Stream(answers[..n])
      invariant seen <= Stream(answers) && |Accepted(seen)| == i && b[..i] == IdOf(Accepted(seen))
      decreases |answers| - n
    {
      MoreToRead(answers, n);
      StreamExtends(answers, n);
      if answers[n].Failed? { return Err; }
      var entropy := answers[n].block;
      ghost var before := seen;
      StreamStillExtends(answers, n);
      var j := 0;
      while j < |entropy| && i < ID_LENGTH
        invariant 0 <= j <= |entropy| && 0 <= i <= ID_LENGTH
        invariant seen == before + entropy[..j]
        invariant |Accepted(seen)| == i && b[..i] == IdOf(Accepted(seen))
      {
        var v := entropy[j];
        TakeByte(seen, v);
        assert before + entropy[..j + 1] == seen + [v];
        seen := seen + [v];
        j := j + 1;
        if v < MAX_BYTE {
          b[i] := IdChar(v % ID_BASE);
          i := i + 1;
        }
      }
      assert i < ID_LENGTH ==> entropy[..j] == entropy;
      assert seen <= before + entropy;
      n := n + 1;
    }
    AcceptedOfPrefix(seen, Stream(answers));
    assert Accepted(Stream(answers))[..ID_LENGTH] == Accepted(seen);
    result := Ok(b[..]);
    assert b[..] == b[..ID_LENGTH];
  }

  lemma NothingTaken()
    ensures Accepted([]) == [] && IdOf([]) == "" && forall answers: seq<Read> :: Stream(answers[..0]) == []
  {
  }

  lemma TakeByte(seen: seq<Byte>, v: Byte)
    ensures Accepted(seen + [v]) == if v < MAX_BYTE then Accepted(seen) + [v] else Accepted(seen)
    ensures IdOf(Accepted(seen) + [v]) == IdOf(Accepted(seen)) + [IdChar(v % ID_BASE)]
    ensures |IdOf(Accepted(seen))| == |Accepted(seen)|
  {
    assert (seen + [v])[..|seen|] == seen;
  }

  lemma StreamStillExtends(answers: seq<Read>, n: nat)
    requires n < |answers| && forall k | 0 <= k <= n :: answers[k].Bytes?
    ensures Stream(answers[..n]) + answers[n].block <= Stream(answers)
  {
    StreamExtends(answers, n);
    if n + 1 < |answers| {
      StreamExtends(answers, n + 1);
    } else {
      assert answers[..n + 1] == answers;
    }
  }

  /** While eight bytes are missing, the source has another answer to give. */
  lemma MoreToRead(answers: seq<Read>, n: nat)
    requires n <= |answers| && forall k | 0 <= k < n :: answers[k].Bytes?
    requires |Accepted(Stream(answers[..n]))| < ID_LENGTH
    requires |Accepted(Stream(answers))| >= ID_LENGTH || exists k :: 0 <= k < |answers| && answers[k].Failed?
    ensures n < |answers|
  {
    assert answers[..|answers|] == answers;
  }

  // ----- every id is valid, and equally likely -----

  lemma IdCharIsAlnum(k: nat)
    requires k < ID_BASE
    ensures IsAlnum(IdChar(k))
  {
  }

  lemma GeneratedIdIsValid(bytes: seq<Byte>)
    requires |bytes| == ID_LENGTH
    ensures ValidResultID(IdOf(bytes))
  {
    forall i | 0 <= i < ID_LENGTH
      ensures IsAlnum(IdOf(bytes)[i])
    {
      IdCharIsAlnum(bytes[i] % ID_BASE);
    }
  }

  function IndexOf(c: char): (k: nat)
    requires IsAlnum(c)
    ensures k < ID_BASE && IdChar(k) == c
  {
    if c <= '9' then (c - '0') as nat
    else if 'a' <= c then 10 + (c - 'a') as nat
    else 36 + (c - 'A') as nat
  }

  lemma IdCharInjective(j: nat, k: nat)
    requires j < ID_BASE && k < ID_BASE && IdChar(j) == IdChar(k)
    ensures j == k
  {
  }

  function Prepend(v: Byte, tails: set<seq<Byte>>): set<seq<Byte>> {
    set t | t in tails :: [v] + t
  }

  /** All byte strings that spell `id`, built character by character from the four
      accepted bytes that map to it. */
  function Preimages(id: string): set<seq<Byte>>
    requires forall i | 0 <= i < |id| :: IsAlnum(id[i])
  {
    if id == "" then {[]}
    else
      FourWays(IndexOf(id[0]), Preimages(id[1..]))
  }

  /** A first byte that maps to character `k`, in front of every string of `tails`. */
  function FourWays(k: nat, tails: set<seq<Byte>>): set<seq<Byte>>
    requires k < ID_BASE
  {
    Prepend(k, tails) + Prepend(k + 62, tails) + Prepend(k + 124, tails) + Prepend(k + 186, tails)
  }

  function Pow4(n: nat): nat { if n == 0 then 1 else 4 * Pow4(n - 1) }

  lemma {:induction false} PrependSize(v: Byte, tails: set<seq<Byte>>)
    ensures |Prepend(v, tails)| == |tails|
    decreases |tails|
  {
    if tails != {} {
      var t :| t in tails;
      PrependSize(v, tails - {t});
      assert Prepend(v, tails) == Prepend(v, tails - {t}) + {[v] + t};
      assert ([v] + t)[1..] == t;
      forall u | u in tails - {t}
        ensures [v] + u != [v] + t
      {
        assert ([v] + u)[1..] == u;
      }
    }
  }

  lemma PrependDisjoint(v: Byte, w: Byte, tails: set<seq<Byte>>)
    requires v != w
    ensures Prepend(v, tails) !! Prepend(w, tails)
  {
    forall s | s in Prepend(v, tails)
      ensures s !in Prepend(w, tails)
    {
      assert s[0] == v;
    }
  }

  /** Every id of n characters has exactly 4^n accepted spellings: 65536 for n = 8. */
  lemma {:induction false} PreimageCount(id: string)
    requires forall i | 0 <= i < |id| :: IsAlnum(id[i])
    ensures |Preimages(id)| == Pow4(|id|)
  {
    if id != "" {
      hide FourWays, IndexOf;
      PreimageCount(id[1..]);
      FourPrepends(IndexOf(id[0]), Preimages(id[1..]));
    }
  }

  lemma FourPrepends(k: nat, tails: set<seq<Byte>>)
    requires k < ID_BASE
    ensures |FourWays(k, tails)| == 4 * |tails|
  {
    hide Prepend;
    PrependSize(k, tails);
    PrependSize(k + 62, tails);
    PrependSize(k + 124, tails);
    PrependSize(k + 186, tails);
    PrependDisjoint(k, k + 62, tails);
    PrependDisjoint(k, k + 124, tails);
    PrependDisjoint(k, k + 186, tails);
    PrependDisjoint(k + 62, k + 124, tails);
    PrependDisjoint(k + 62, k + 186, tails);
    PrependDisjoint(k + 124, k + 186, tails);
    FourParts(Prepend(k, tails), Prepend(k + 62, tails), Prepend(k + 124, tails), Prepend(k + 186, tails));
  }

  lemma FourParts<T>(a: set<T>, b: set<T>, c: set<T>, d: set<T>)
    requires a !! b && a !! c && a !! d && b !! c && b !! d && c !! d
    ensures |a + b + c + d| == |a| + |b| + |c| + |d|
  {
    assert |a + b| == |a| + |b|;
    assert |a + b + c| == |a + b| + |c|;
  }

  /** Byte strings the sampler turns into `id`. */
  ghost predicate Spells(bytes: seq<Byte>, id: string) {
    (forall i | 0 <= i < |bytes| :: bytes[i] < MAX_BYTE) && IdOf(bytes) == id
  }

  lemma SpellsCons(v: Byte, rest: seq<Byte>, id: string)
    requires id != ""
    ensures Spells([v] + rest, id) == (v < MAX_BYTE && IdChar(v % ID_BASE) == id[0] && Spells(rest, id[1..]))
  {
    var bytes := [v] + rest;
    assert IdOf(bytes) == [IdChar(v % ID_BASE)] + IdOf(rest);
    assert id == [id[0]] + id[1..];
    assert IdOf(bytes)[1..] == IdOf(rest);
    assert forall i | 0 <= i < |rest| :: rest[i] == bytes[i + 1];
  }

  lemma FourBytes(v: Byte, k: nat)
    requires k < ID_BASE
    ensures v < MAX_BYTE && IdChar(v % ID_BASE) == IdChar(k) <==> v in {k, k + 62, k + 124, k + 186}
  {
    if IdChar(v % ID_BASE) == IdChar(k) { IdCharInjective(v % ID_BASE, k); }
  }

  lemma PrependCons(w: Byte, v: Byte, rest: seq<Byte>, tails: set<seq<Byte>>)
    ensures [v] + rest in Prepend(w, tails) <==> v == w && rest in tails
  {
    assert ([v] + rest)[1..] == rest;
    if [v] + rest in Prepend(w, tails) {
      var t :| t in tails && [v] + rest == [w] + t;
      assert ([w] + t)[1..] == t;
    }
  }

  /** The preimages are what the sampler maps to `id`, no more and no less. */
  lemma {:induction false} PreimagesAreExact(id: string, bytes: seq<Byte>)
    requires forall i | 0 <= i < |id| :: IsAlnum(id[i])
    ensures bytes in Preimages(id) <==> Spells(bytes, id)
  {
    if id == "" {
      assert |IdOf(bytes)| == |bytes|;
    } else if bytes == [] {
      assert IdOf(bytes) == "";
    } else {
      hide IsAlnum, IdChar, Prepend, Spells;
      var k, tails := IndexOf(id[0]), Preimages(id[1..]);
      var v, rest := bytes[0], bytes[1..];
      assert bytes == [v] + rest;
      PreimagesAreExact(id[1..], rest);
      SpellsCons(v, rest, id);
      FourBytes(v, k);
      PrependCons(k, v, rest, tails);
      PrependCons(k + 62, v, rest, tails);
      PrependCons(k + 124, v, rest, tails);
      PrependCons(k + 186, v, rest, tails);
    }
  }

  /** Unbiased ids: every valid id is spelled by exactly 65536 accepted byte strings. */
  lemma IdsAreUnbiased(id: string)
    requires ValidResultID(id)
    ensures |Preimages(id)| == 65536
    ensures forall bytes: seq<Byte> :: bytes in Preimages(id) <==> Spells(bytes, id)
  {
    PreimageCount(id);
    assert Pow4(8) == 4 * 4 * Pow4(6) == 16 * 16 * Pow4(4) == 256 * 16 * Pow4(2) == 65536;
    forall bytes: seq<Byte>
      ensures bytes in Preimages(id) <==> Spells(bytes, id)
    {
      PreimagesAreExact(id, bytes);
    }
  }
}
