/** The forward and backward scanners over SQL text (src/sql.rs). Text is bytes: every byte of a multi-byte
    character is above 0x7F and matches none of the ASCII tests. */
module Scanner {
  import opened Base

  newtype byte = b: int | 0 <= b < 256
  type Text = seq<byte>

  const OPEN: byte := 0x28
  const CLOSE: byte := 0x29
  const QUOTE: byte := 0x27

  /** `is_ascii_whitespace`: no vertical tab. */
  predicate IsSpace(b: byte) { b == 0x20 || b == 0x09 || b == 0x0A || b == 0x0C || b == 0x0D }

  predicate IsWord(b: byte) {
    0x30 <= b <= 0x39 || 0x41 <= b <= 0x5A || 0x61 <= b <= 0x7A || b == 0x5F || b == 0x2E
  }

  /** The bytes as characters: ASCII letters, digits, `_` and `.`; ASCII white space. */
  lemma BytesSay(b: byte)
    ensures var c := b as int as char;
            && (IsWord(b) <==> '0' <= c <= '9' || 'A' <= c <= 'Z' || 'a' <= c <= 'z' || c == '_' || c == '.')
            && (IsSpace(b) <==> c == ' ' || c == '\t' || c == '\n' || c == '\r' || c as int == 12)
  {
  }

  // ---------- What depth means ----------

  function Weight(b: byte): int { if b == OPEN then 1 else if b == CLOSE then -1 else 0 }

  /** Whether position `i` is inside a literal, reading from `from`: an odd number of quotes stands before it. */
  predicate InLiteral(s: Text, from: nat, i: nat)
    requires from <= i <= |s|
    decreases i
  {
    i > from && InLiteral(s, from, i - 1) != (s[i - 1] == QUOTE)
  }

  /** Parentheses opened less parentheses closed in `s[from..i]`, outside literals. */
  function Depth(s: Text, from: nat, i: nat): int
    requires from <= i <= |s|
    decreases i
  {
    if i == from then 0
    else Depth(s, from, i - 1) + if InLiteral(s, from, i - 1) then 0 else Weight(s[i - 1])
  }

  /** The same sum, blind to literals. */
  function Net(s: Text, from: nat, i: nat): int
    requires from <= i <= |s|
    decreases i
  {
    if i == from then 0 else Net(s, from, i - 1) + Weight(s[i - 1])
  }

  lemma {:induction false} NetSplits(s: Text, from: nat, mid: nat, i: nat)
    requires from <= mid <= i <= |s|
    ensures Net(s, from, i) == Net(s, from, mid) + Net(s, mid, i)
    decreases i
  {
    if mid < i { NetSplits(s, from, mid, i - 1); }
  }

  // ---------- Forward: find_matching_paren ----------

  /** `c` is the first place where the depth outside literals is back at zero. */
  ghost predicate ClosesAt(s: Text, open: nat, c: nat) {
    && open < c < |s| && s[c] == CLOSE && !InLiteral(s, open, c) && Depth(s, open, c + 1) == 0
    && forall k :: open < k <= c ==> Depth(s, open, k) > 0
  }

  ghost predicate NeverCloses(s: Text, open: nat) {
    forall k :: open < k <= |s| ==> Depth(s, open, k) > 0
  }

  method FindMatchingParen(s: Text, open: nat) returns (close: Option<nat>)
    ensures open >= |s| || s[open] != OPEN ==> close == None
    ensures open < |s| && s[open] == OPEN && close.Some? ==> ClosesAt(s, open, close.value)
    ensures open < |s| && s[open] == OPEN && close.None? ==> NeverCloses(s, open)
  {
    if open >= |s| || s[open] != OPEN {
      return None;
    }
    var depth := 0;
    var i := open;
    while i < |s|
      invariant open <= i <= |s| + 1
      invariant i <= |s| ==> !InLiteral(s, open, i) && depth == Depth(s, open, i)
      invariant i > open ==> depth > 0
      invariant forall k :: open < k <= i && k <= |s| ==> Depth(s, open, k) > 0
    {
      if s[i] == OPEN {
        depth := depth + 1;
      } else if s[i] == CLOSE {
        depth := depth - 1;
        if depth == 0 {
          return Some(i);
        }
      } else if s[i] == QUOTE {
        i := i + 1;
        while i < |s|
          invariant open < i <= |s|
          invariant InLiteral(s, open, i) && depth == Depth(s, open, i)
          invariant forall k :: open < k <= i ==> Depth(s, open, k) > 0
        {
          if s[i] == QUOTE {
            break;
          }
          i := i + 1;
        }
      }
      i := i + 1;
    }
    return None;
  }

  /** There is at most one answer, so the method's result is fixed: the first one, or none. */
  lemma ClosingIsUnique(s: Text, open: nat, c: nat, d: nat)
    requires ClosesAt(s, open, c)
    ensures !NeverCloses(s, open)
    ensures ClosesAt(s, open, d) ==> c == d
  {
    assert Depth(s, open, c + 1) == 0;
    if ClosesAt(s, open, d) {
      assert Depth(s, open, d + 1) == 0;
    }
  }

  // ---------- Backward: find_expr_start ----------

  /** Where the text before `end` stops once trailing white space is dropped. */
  function TextEnd(s: Text, end: nat): (p: nat)
    requires end <= |s|
    ensures p <= end && (p == 0 || !IsSpace(s[p - 1])) && forall k :: p <= k < end ==> IsSpace(s[k])
    decreases end
  {
    if end > 0 && IsSpace(s[end - 1]) then TextEnd(s, end - 1) else end
  }

  /** Reading back from `p`, the parentheses first balance at `o`. */
  ghost predicate BalancesAt(s: Text, p: nat, o: nat) {
    && o + 1 < p <= |s| && Net(s, o, p) == 0
    && forall k :: o < k < p ==> Net(s, k, p) < 0
  }

  ghost predicate NeverBalances(s: Text, p: nat)
    requires p <= |s|
  {
    forall k :: 0 <= k < p ==> Net(s, k, p) < 0
  }

  /** `s[a..b]` is the whole run of word characters that ends at `b`. */
  predicate WordRun(s: Text, a: nat, b: nat) {
    && a <= b <= |s| && (a == 0 || !IsWord(s[a - 1]))
    && forall k :: a <= k < b ==> IsWord(s[k])
  }

  /** Where the literal whose closing quote stands at `i` begins: doubled quotes are skipped in pairs. */
  function LiteralStart(s: Text, i: nat): nat
    requires i <= |s|
    decreases i
  {
    if i == 0 then 0
    else if s[i - 1] != QUOTE then LiteralStart(s, i - 1)
    else if i > 1 && s[i - 2] == QUOTE then LiteralStart(s, i - 2)
    else i - 1
  }

  method FindExprStart(s: Text, end: nat) returns (start: nat)
    requires end <= |s|
    ensures var p := TextEnd(s, end); start <= p
    ensures var p := TextEnd(s, end); p > 0 && s[p - 1] == CLOSE ==>
      || (NeverBalances(s, p) && start == 0)
      || exists o :: BalancesAt(s, p, o) && WordRun(s, start, o)
    ensures var p := TextEnd(s, end); p > 0 && s[p - 1] == QUOTE ==> start == LiteralStart(s, p - 1)
    ensures var p := TextEnd(s, end); p > 0 && s[p - 1] != CLOSE && s[p - 1] != QUOTE ==> WordRun(s, start, p)
  {
    var i: nat := end;
    while i > 0 && IsSpace(s[i - 1])
      invariant i <= end && TextEnd(s, i) == TextEnd(s, end)
    {
      i := i - 1;
    }
    if i == 0 {
      return 0;
    }
    ghost var p := i;
    if s[i - 1] == CLOSE {
      var depth := 1;
      i := i - 1;
      while i > 0 && depth > 0
        invariant i < p && depth == -Net(s, i, p)
        invariant depth == 0 ==> i + 1 < p
        invariant depth >= 0 && forall k :: i < k < p ==> Net(s, k, p) < 0
      {
        i := i - 1;
        NetSplits(s, i, i + 1, p);
        if s[i] == CLOSE {
          depth := depth + 1;
        } else if s[i] == OPEN {
          depth := depth - 1;
        }
      }
      ghost var o := i;
      while i > 0
        invariant i <= o && forall k :: i <= k < o ==> IsWord(s[k])
      {
        if IsWord(s[i - 1]) {
          i := i - 1;
        } else {
          break;
        }
      }
      assert depth == 0 ==> BalancesAt(s, p, o) && WordRun(s, i, o);
      return i;
    }
    if s[i - 1] == QUOTE {
      i := i - 1;
      while i > 0
        invariant i < p && LiteralStart(s, i) == LiteralStart(s, p - 1)
      {
        i := i - 1;
        if s[i] == QUOTE {
          if i > 0 && s[i - 1] == QUOTE {
            i := i - 1;
            continue;
          }
          assert LiteralStart(s, i + 1) == i;
          return i;
        }
      }
      return i;
    }
    while i > 0
      invariant i <= p && forall k :: i <= k < p ==> IsWord(s[k])
    {
      if IsWord(s[i - 1]) {
        i := i - 1;
      } else {
        break;
      }
    }
    return i;
  }

  // ---------- The two scanners are inverse ----------

  /** No parenthesis of `s[from..upto]` stands inside a literal; text without quotes is the plain case. */
  ghost predicate LiteralsArePlain(s: Text, from: nat, upto: nat) {
    from <= upto <= |s| && forall k :: from <= k < upto && InLiteral(s, from, k) ==> Weight(s[k]) == 0
  }

  lemma {:induction false} QuoteFreeIsPlain(s: Text, from: nat, upto: nat)
    requires from <= upto <= |s| && forall k :: from <= k < upto ==> s[k] != QUOTE
    ensures LiteralsArePlain(s, from, upto) && !InLiteral(s, from, upto)
    decreases upto
  {
    if from < upto { QuoteFreeIsPlain(s, from, upto - 1); }
  }

  /** Parentheses opened less parentheses closed inside the literals of `s[from..i]`. */
  function Quoted(s: Text, from: nat, i: nat): int
    requires from <= i <= |s|
    decreases i
  {
    if i == from then 0
    else Quoted(s, from, i - 1) + if InLiteral(s, from, i - 1) then Weight(s[i - 1]) else 0
  }

  lemma {:induction false} NetSplitsByLiteral(s: Text, from: nat, i: nat)
    requires from <= i <= |s|
    ensures Net(s, from, i) == Depth(s, from, i) + Quoted(s, from, i)
    decreases i
  {
    if from < i { NetSplitsByLiteral(s, from, i - 1); }
  }

  /** The quoted parentheses cancel over `s[o..p]`, and nowhere on the way do those closed outnumber the real depth. */
  ghost predicate QuotedCancel(s: Text, o: nat, p: nat)
    requires o < p <= |s|
  {
    Quoted(s, o, p) == 0 && forall k :: o < k < p ==> -Quoted(s, o, k) < Depth(s, o, k)
  }

  /** The `)` before `p` is not quoted, the quoted parentheses cancel over `s[o..p]`, and nowhere on the way do those
      opened make up the whole balance. */
  ghost predicate QuotedFit(s: Text, o: nat, p: nat)
    requires o < p <= |s|
  {
    !InLiteral(s, o, p - 1) && Quoted(s, o, p) == 0 && forall k :: o < k < p ==> Quoted(s, o, k) < Net(s, o, k)
  }

  /** Reading forward from `o` stops at the `)` before `p`: then reading back from `p` balances at `o` exactly when
      the quoted parentheses cancel. */
  lemma BackwardFindsForward(s: Text, o: nat, p: nat)
    requires o < p <= |s| && ClosesAt(s, o, p - 1)
    ensures BalancesAt(s, p, o) <==> QuotedCancel(s, o, p)
  {
    forall k | o <= k <= p
      ensures Net(s, k, p) == Quoted(s, o, p) - Depth(s, o, k) - Quoted(s, o, k)
    {
      assert Depth(s, o, p) == 0;
      NetSplitsByLiteral(s, o, k);
      NetSplitsByLiteral(s, o, p);
      NetSplits(s, o, k, p);
    }
    if BalancesAt(s, p, o) {
      forall k | o < k < p ensures -Quoted(s, o, k) < Depth(s, o, k) { assert Net(s, k, p) < 0; }
    }
  }

  /** The other way: reading back from `p` balances at `o`; then reading forward from `o` stops at the `)` before `p`
      exactly when the quoted parentheses fit. */
  lemma ForwardFindsBackward(s: Text, o: nat, p: nat)
    requires BalancesAt(s, p, o)
    ensures ClosesAt(s, o, p - 1) <==> QuotedFit(s, o, p)
  {
    forall k | o <= k <= p ensures Net(s, o, k) == Depth(s, o, k) + Quoted(s, o, k) { NetSplitsByLiteral(s, o, k); }
    assert Net(s, p - 1, p) == Weight(s[p - 1]) < 0;
    if ClosesAt(s, o, p - 1) {
      forall k | o < k < p ensures Quoted(s, o, k) < Net(s, o, k) { assert Depth(s, o, k) > 0; }
    }
    if QuotedFit(s, o, p) {
      forall k | o < k <= p - 1 ensures Depth(s, o, k) > 0 { assert Quoted(s, o, k) < Net(s, o, k); }
    }
  }

  lemma {:induction false} PlainQuotesNothing(s: Text, from: nat, upto: nat, k: nat)
    requires LiteralsArePlain(s, from, upto) && from <= k <= upto
    ensures Quoted(s, from, k) == 0
    decreases k
  {
    if from < k { PlainQuotesNothing(s, from, upto, k - 1); }
  }

  /** With no parenthesis inside a literal the two scanners are inverse: reading back from a `)` balances at `o`
      exactly when reading forward from `o` stops at that `)`. */
  lemma ScannersAreInverse(s: Text, o: nat, p: nat)
    requires o < p <= |s| && LiteralsArePlain(s, o, p)
    ensures BalancesAt(s, p, o) <==> ClosesAt(s, o, p - 1)
  {
    forall k | o <= k <= p
      ensures Depth(s, o, k) == Net(s, o, k) && Net(s, o, p) == Net(s, o, k) + Net(s, k, p)
    {
      PlainQuotesNothing(s, o, p, k);
      NetSplitsByLiteral(s, o, k);
      NetSplits(s, o, k, p);
    }
    assert Net(s, p - 1, p) == Weight(s[p - 1]);
    if BalancesAt(s, p, o) {
      assert Net(s, p - 1, p) < 0;
      forall k | o < k <= p - 1 ensures Depth(s, o, k) > 0 { assert Net(s, k, p) < 0; }
    }
    if ClosesAt(s, o, p - 1) {
      forall k | o < k < p ensures Net(s, k, p) < 0 { assert Depth(s, o, k) > 0; }
    }
  }

  /** A parenthesis inside a literal breaks it: in `a,f(')')` the forward scan pairs the outer parentheses, the
      backward scan counts the quoted one and never balances. */
  lemma QuotedParenthesisMisleads()
    ensures var s: Text := [0x61, 0x2C, 0x66, OPEN, QUOTE, CLOSE, QUOTE, CLOSE];
            ClosesAt(s, 3, 7) && NeverBalances(s, 8)
  {
    var s: Text := [0x61, 0x2C, 0x66, OPEN, QUOTE, CLOSE, QUOTE, CLOSE];
    assert Depth(s, 3, 4) == 1 && !InLiteral(s, 3, 4);
    assert Depth(s, 3, 5) == 1 && InLiteral(s, 3, 5);
    assert Depth(s, 3, 6) == 1 && InLiteral(s, 3, 6);
    assert Depth(s, 3, 7) == 1 && !InLiteral(s, 3, 7);
    assert Depth(s, 3, 8) == 0;
    forall k | 0 <= k < 8 ensures Net(s, k, 8) < 0 {
      assert Net(s, 7, 8) == -1;
      NetSplits(s, 6, 7, 8); NetSplits(s, 5, 6, 8); NetSplits(s, 4, 5, 8); NetSplits(s, 3, 4, 8);
      NetSplits(s, 2, 3, 8); NetSplits(s, 1, 2, 8); NetSplits(s, 0, 1, 8);
    }
  }

  /** And the other way: in `('(')` the backward scan balances at the quoted parenthesis, from which the forward scan
      never closes. */
  lemma BackwardStopsInALiteral()
    ensures var s: Text := [OPEN, QUOTE, OPEN, QUOTE, CLOSE];
            BalancesAt(s, 5, 2) && NeverCloses(s, 2) && !QuotedFit(s, 2, 5)
  {
    var s: Text := [OPEN, QUOTE, OPEN, QUOTE, CLOSE];
    assert Net(s, 4, 5) == -1;
    NetSplits(s, 3, 4, 5);
    NetSplits(s, 2, 3, 5);
    assert Depth(s, 2, 3) == 1 && !InLiteral(s, 2, 3);
    assert Depth(s, 2, 4) == 1 && InLiteral(s, 2, 4);
    assert Depth(s, 2, 5) == 1;
  }

  // ---------- Literals read back ----------

  /** The body of a literal as SQL writes it: each quote doubled. */
  function Escape(body: Text): Text {
    if body == [] then []
    else
      var c := body[|body| - 1];
      Escape(body[..|body| - 1]) + if c == QUOTE then [QUOTE, QUOTE] else [c]
  }

  /** Whatever a literal holds, the backward scan finds its opening quote, provided no quote stands just before. */
  lemma {:induction false} LiteralReadsBack(s: Text, pre: Text, body: Text, i: nat)
    requires i <= |s| && s[..i] == pre + [QUOTE] + Escape(body)
    requires pre == [] || pre[|pre| - 1] != QUOTE
    ensures LiteralStart(s, i) == |pre|
    decreases |body|
  {
    var t := pre + [QUOTE] + Escape(body);
    assert i > 0 && s[i - 1] == t[i - 1];
    if body == [] {
      assert i == |pre| + 1;
      assert i > 1 ==> s[i - 2] == t[i - 2] == pre[|pre| - 1];
    } else {
      var shorter := body[..|body| - 1];
      var j := i - if body[|body| - 1] == QUOTE then 2 else 1;
      assert t[..j] == pre + [QUOTE] + Escape(shorter);
      assert s[..j] == s[..i][..j];
      assert i > 1 && s[i - 2] == t[i - 2];
      LiteralReadsBack(s, pre, shorter, j);
    }
  }

  /** And the forward scan passes over it: no depth changes inside, and the text after it is outside again. */
  lemma {:induction false} LiteralIsTransparent(s: Text, from: nat, a: nat, body: Text, i: nat)
    requires from <= a < i <= |s| && !InLiteral(s, from, a) && s[a..i] == [QUOTE] + Escape(body)
    ensures InLiteral(s, from, i) && Depth(s, from, i) == Depth(s, from, a)
    ensures i < |s| && s[i] == QUOTE ==> !InLiteral(s, from, i + 1) && Depth(s, from, i + 1) == Depth(s, from, a)
    decreases |body|
  {
    var t := [QUOTE] + Escape(body);
    assert s[i - 1] == s[a..i][i - 1 - a] == t[i - 1 - a];
    if body == [] {
      assert i == a + 1;
    } else {
      var shorter := body[..|body| - 1];
      var j := i - if body[|body| - 1] == QUOTE then 2 else 1;
      assert t[..j - a] == [QUOTE] + Escape(shorter);
      assert s[a..j] == s[a..i][..j - a];
      assert s[j] == s[a..i][j - a] == t[j - a];
      LiteralIsTransparent(s, from, a, shorter, j);
    }
  }
}
