/**
 Filling a template by a chain of `String.replace` calls
 (packages/core/src/templates/simplified-tax-invoice.ts:111-128). Each call replaces the first occurrence of its token
 only, and expands `$` patterns in the value. The chain substitutes all tokens at once when no value holds a pattern or
 "SET_" and no token is replaced before a longer one that starts with it.
 */
module TemplateFill {
  import opened Collections

  // ---- String.replace with a string pattern ----------------------------------------------------

  /** The first index of `t` in `s`, or more than `|s|`. */
  function IndexOf(s: string, t: string): (n: nat)
    ensures n <= |s| ==> OccursAt(s, t, n)
    ensures forall i: nat :: i < n ==> !OccursAt(s, t, i)
    ensures n <= |s| + 1
    decreases |s|
  {
    if t <= s then 0
    else if s == "" then 1
    else
      var n := 1 + IndexOf(s[1..], t);
      assert forall i: nat :: 0 < i ==> OccursAt(s, t, i) == OccursAt(s[1..], t, i - 1);
      n
  }

  /** The `$` patterns of a replacement value: `$$`, `$&`, `` $` `` and `$'`. */
  function Expanded(value: string, before: string, found: string, after: string): string {
    if |value| < 2 then value
    else if value[0] != '$' then [value[0]] + Expanded(value[1..], before, found, after)
    else if value[1] == '$' then "$" + Expanded(value[2..], before, found, after)
    else if value[1] == '&' then found + Expanded(value[2..], before, found, after)
    else if value[1] == '`' then before + Expanded(value[2..], before, found, after)
    else if value[1] == '\'' then after + Expanded(value[2..], before, found, after)
    else "$" + Expanded(value[1..], before, found, after)
  }

  function Replace(s: string, token: string, value: string): string {
    var n := IndexOf(s, token);
    if n > |s| then s
    else s[..n] + Expanded(value, s[..n], token, s[n + |token|..]) + s[n + |token|..]
  }

  predicate IsPatternAt(value: string, i: nat) {
    i + 1 < |value| && value[i] == '$'
    && (value[i + 1] == '$' || value[i + 1] == '&' || value[i + 1] == '`' || value[i + 1] == '\'')
  }

  /** The value holds none of the patterns, so it stands for itself. */
  predicate IsVerbatim(value: string) {
    forall i: nat :: i < |value| ==> !IsPatternAt(value, i)
  }

  lemma VerbatimTail(value: string)
    requires IsVerbatim(value) && value != ""
    ensures IsVerbatim(value[1..]) && !IsPatternAt(value, 0)
  {
    forall i: nat | i < |value| - 1 ensures !IsPatternAt(value[1..], i) {
      assert !IsPatternAt(value, i + 1);
    }
  }

  lemma {:induction false} ExpandedPlain(value: string, before: string, found: string, after: string)
    requires IsVerbatim(value)
    ensures Expanded(value, before, found, after) == value
  {
    if |value| >= 2 {
      VerbatimTail(value);
      ExpandedPlain(value[1..], before, found, after);
      assert [value[0]] + value[1..] == value;
    }
  }

  predicate HoldsDollar(value: string) {
    '$' in value
  }

  lemma {:induction false} ExpandedBehind(value: string, more: string, before: string, found: string, after: string)
    requires !HoldsDollar(value)
    ensures Expanded(value + more, before, found, after) == value + Expanded(more, before, found, after)
  {
    var all := value + more;
    if value == "" {
      assert all == more;
    } else {
      assert all[0] == value[0] && all[1..] == value[1..] + more;
      ExpandedBehind(value[1..], more, before, found, after);
    }
  }

  /** What a pattern stands for: a dollar, the token, or the text before or behind it. */
  function Meaning(c: char, before: string, found: string, after: string): string
    requires c == '$' || c == '&' || c == '`' || c == '\''
  {
    if c == '$' then "$" else if c == '&' then found else if c == '`' then before else after
  }

  /** The first pattern in a value is replaced by what it stands for. */
  lemma PatternExpands(value: string, c: char, rest: string, before: string, found: string, after: string)
    requires !HoldsDollar(value) && (c == '$' || c == '&' || c == '`' || c == '\'')
    ensures Expanded(value + (['$', c] + rest), before, found, after)
      == value + (Meaning(c, before, found, after) + Expanded(rest, before, found, after))
  {
    var pattern := ['$', c] + rest;
    ExpandedBehind(value, pattern, before, found, after);
    assert pattern[2..] == rest;
  }

  datatype Pair = Pair(token: string, value: string)

  function Fill(s: string, pairs: seq<Pair>): string
    decreases |pairs|
  {
    if pairs == [] then s else Fill(Replace(s, pairs[0].token, pairs[0].value), pairs[1..])
  }

  // ---- Templates -------------------------------------------------------------------------------

  const MARK := "SET_"

  predicate IsTokenChar(c: char) {
    'A' <= c <= 'Z' || c == '_'
  }

  predicate IsFree(s: string) {
    forall i: nat :: i <= |s| ==> !OccursAt(s, MARK, i)
  }

  predicate IsToken(u: string) {
    && OccursAt(u, MARK, 0)
    && (forall i :: 0 <= i < |u| ==> IsTokenChar(u[i]))
    && forall i: nat :: 0 < i <= |u| ==> !OccursAt(u, MARK, i)
  }

  /** The text between two slots. */
  predicate IsGap(s: string) {
    IsFree(s) && s != "" && !IsTokenChar(s[0]) && !IsTokenChar(s[|s| - 1])
  }

  /** A place in the template, holding a token or the value put there, and the text after it. */
  datatype Slot = Slot(content: string, gap: string)

  predicate IsTemplate(slots: seq<Slot>) {
    forall k :: 0 <= k < |slots| ==> (IsFree(slots[k].content) || IsToken(slots[k].content)) && IsGap(slots[k].gap)
  }

  function Flat(slots: seq<Slot>): string {
    if slots == [] then "" else slots[0].content + (slots[0].gap + Flat(slots[1..]))
  }

  // ---- One replacement -------------------------------------------------------------------------

  /** Replacing in the first slot whose content starts with the token. */
  function Replaced(slots: seq<Slot>, token: string, value: string): seq<Slot> {
    if slots == [] then []
    else if token <= slots[0].content then [Slot(value + slots[0].content[|token|..], slots[0].gap)] + slots[1..]
    else [slots[0]] + Replaced(slots[1..], token, value)
  }

  lemma OccurrenceBegins(p: string, rest: string, i: nat)
    requires i < |p|
    ensures OccursAt(p + rest, MARK, i) ==>
      OccursAt(p, MARK, i) || (rest != "" && IsTokenChar(p[|p| - 1]) && IsTokenChar(rest[0]))
  {
    var s := p + rest;
    if OccursAt(s, MARK, i) && i + 4 <= |p| {
      assert s[i..i + 4] == p[i..i + 4];
    } else if OccursAt(s, MARK, i) {
      assert forall j :: 0 <= j < 4 ==> IsTokenChar(MARK[j]);
      assert s[|p| - 1] == s[i..i + 4][|p| - 1 - i];
      assert s[|p|] == s[i..i + 4][|p| - i];
    }
  }

  /** No token begins in a text that has no mark and ends, or is followed, by a character that no token has. */
  lemma NoTokenBegins(p: string, rest: string, token: string, i: nat)
    requires IsFree(p) && i < |p| && MARK <= token
    requires rest == "" || !IsTokenChar(p[|p| - 1]) || !IsTokenChar(rest[0])
    ensures !OccursAt(p + rest, token, i)
  {
    OccurrenceBegins(p, rest, i);
    TokenIsMarked(p + rest, token, i);
  }

  lemma LongOccurrence(u: string, rest: string, token: string, i: nat)
    requires IsToken(token) && i < |u| < i + |token|
    ensures OccursAt(u + rest, token, i) ==> rest != "" && IsTokenChar(rest[0])
  {
    var s := u + rest;
    if OccursAt(s, token, i) {
      assert s[|u|] == s[i..i + |token|][|u| - i];
    }
  }

  lemma ShortOccurrence(u: string, rest: string, token: string, i: nat)
    requires i + |token| <= |u|
    ensures OccursAt(u + rest, token, i) <==> OccursAt(u, token, i)
  {
    assert (u + rest)[i..i + |token|] == u[i..i + |token|];
  }

  lemma TokenIsMarked(s: string, token: string, i: nat)
    requires MARK <= token
    ensures OccursAt(s, token, i) ==> OccursAt(s, MARK, i)
  {
    if OccursAt(s, token, i) {
      assert s[i..i + 4] == s[i..i + |token|][..4];
    }
  }

  lemma TokensHaveMark(token: string)
    requires IsToken(token)
    ensures MARK <= token
  {
    assert token[0..4] == token[..4];
  }

  /** In a slot's token only a prefix of that token can begin, and only at its start. */
  lemma TokenInToken(u: string, rest: string, token: string, i: nat)
    requires IsToken(u) && IsToken(token) && i < |u| && rest != "" && !IsTokenChar(rest[0])
    ensures OccursAt(u + rest, token, i) ==> i == 0 && token <= u
  {
    TokensHaveMark(token);
    TokenIsMarked(u + rest, token, i);
    OccurrenceBegins(u, rest, i);
    if i + |token| <= |u| {
      ShortOccurrence(u, rest, token, i);
    } else {
      LongOccurrence(u, rest, token, i);
    }
  }

  // ---- Replacing behind a text -----------------------------------------------------------------

  lemma OccursBehind(p: string, rest: string, t: string, i: nat)
    ensures OccursAt(p + rest, t, |p| + i) <==> OccursAt(rest, t, i)
  {
    if i + |t| <= |rest| {
      assert (p + rest)[|p| + i..|p| + i + |t|] == rest[i..i + |t|];
    }
  }

  lemma IndexBehind(p: string, rest: string, t: string)
    requires t != "" && forall i: nat :: i < |p| ==> !OccursAt(p + rest, t, i)
    ensures IndexOf(p + rest, t) == |p| + IndexOf(rest, t)
  {
    var n, m := IndexOf(p + rest, t), IndexOf(rest, t);
    OccursBehind(p, rest, t, m);
    if n >= |p| {
      OccursBehind(p, rest, t, n - |p|);
    }
  }

  function Spliced(s: string, n: nat, length: nat, value: string): string
    requires n + length <= |s|
  {
    s[..n] + value + s[n + length..]
  }

  lemma ReplaceFound(s: string, t: string, value: string)
    requires IsVerbatim(value) && IndexOf(s, t) <= |s|
    ensures Replace(s, t, value) == Spliced(s, IndexOf(s, t), |t|, value)
  {
    var n := IndexOf(s, t);
    ExpandedPlain(value, s[..n], t, s[n + |t|..]);
  }

  lemma SplicedBehind(p: string, rest: string, n: nat, length: nat, value: string)
    requires n + length <= |rest|
    ensures Spliced(p + rest, |p| + n, length, value) == p + Spliced(rest, n, length, value)
  {
    assert (p + rest)[..|p| + n] == p + rest[..n];
    assert (p + rest)[|p| + n + length..] == rest[n + length..];
  }

  lemma ReplaceBehind(p: string, rest: string, t: string, value: string)
    requires t != "" && IsVerbatim(value) && forall i: nat :: i < |p| ==> !OccursAt(p + rest, t, i)
    ensures Replace(p + rest, t, value) == p + Replace(rest, t, value)
  {
    IndexBehind(p, rest, t);
    if IndexOf(rest, t) <= |rest| {
      ReplaceFound(p + rest, t, value);
      ReplaceFound(rest, t, value);
      SplicedBehind(p, rest, IndexOf(rest, t), |t|, value);
    }
  }

  lemma ReplaceHere(u: string, rest: string, t: string, value: string)
    requires t <= u && IsVerbatim(value)
    ensures Replace(u + rest, t, value) == value + u[|t|..] + rest
  {
    var s := u + rest;
    assert t <= s;
    ExpandedPlain(value, s[..0], t, s[|t|..]);
    assert s[|t|..] == u[|t|..] + rest;
  }

  lemma NothingInContent(slot: Slot, rest: string, token: string)
    requires IsTemplate([slot]) && IsToken(token) && !(token <= slot.content)
    ensures forall i: nat :: i < |slot.content| ==> !OccursAt(slot.content + (slot.gap + rest), token, i)
  {
    assert IsGap([slot][0].gap);
    forall i: nat | i < |slot.content| ensures !OccursAt(slot.content + (slot.gap + rest), token, i) {
      TokensHaveMark(token);
      if IsFree(slot.content) {
        NoTokenBegins(slot.content, slot.gap + rest, token, i);
      } else {
        TokenInToken(slot.content, slot.gap + rest, token, i);
      }
    }
  }

  lemma NothingInGap(slot: Slot, rest: string, token: string)
    requires IsTemplate([slot]) && IsToken(token)
    ensures forall i: nat :: i < |slot.gap| ==> !OccursAt(slot.gap + rest, token, i)
  {
    assert IsGap([slot][0].gap);
    forall i: nat | i < |slot.gap| ensures !OccursAt(slot.gap + rest, token, i) {
      TokensHaveMark(token);
      NoTokenBegins(slot.gap, rest, token, i);
    }
  }

  /** One `replace` on the text is one replacement among the slots. */
  lemma {:induction false} ReplaceInSlots(slots: seq<Slot>, token: string, value: string)
    requires IsTemplate(slots) && IsToken(token) && IsVerbatim(value)
    ensures Replace(Flat(slots), token, value) == Flat(Replaced(slots, token, value))
  {
    if slots != [] {
      var slot, rest := slots[0], slots[1..];
      assert IsTemplate([slot]);
      if token <= slot.content {
        ReplaceHere(slot.content, slot.gap + Flat(rest), token, value);
      } else {
        NothingInContent(slot, Flat(rest), token);
        ReplaceBehind(slot.content, slot.gap + Flat(rest), token, value);
        NothingInGap(slot, Flat(rest), token);
        ReplaceBehind(slot.gap, Flat(rest), token, value);
        ReplaceInSlots(rest, token, value);
      }
    }
  }

  // ---- The chain -------------------------------------------------------------------------------

  function ValueOf(content: string, pairs: seq<Pair>): string {
    if pairs == [] then content
    else if pairs[0].token == content then pairs[0].value
    else ValueOf(content, pairs[1..])
  }

  /** All tokens replaced at once. */
  function Substituted(slots: seq<Slot>, pairs: seq<Pair>): (r: seq<Slot>)
    ensures |r| == |slots|
  {
    seq(|slots|, k requires 0 <= k < |slots| => Slot(ValueOf(slots[k].content, pairs), slots[k].gap))
  }

  predicate IsPlain(p: Pair) {
    IsToken(p.token) && IsFree(p.value) && IsVerbatim(p.value)
  }

  predicate ArePlain(pairs: seq<Pair>) {
    forall i :: 0 <= i < |pairs| ==> IsPlain(pairs[i])
  }

  predicate TokensDistinct(slots: seq<Slot>) {
    forall k, l :: 0 <= k < l < |slots| && IsToken(slots[k].content) ==> slots[k].content != slots[l].content
  }

  predicate IsReplacedBy(u: string, pairs: seq<Pair>, i: nat)
    requires i < |pairs|
  {
    exists j :: 0 <= j <= i && pairs[j].token == u
  }

  /** No slot's token is still there when a proper prefix of it is replaced. */
  predicate IsOrderly(slots: seq<Slot>, pairs: seq<Pair>) {
    forall k, i ::
      0 <= k < |slots| && 0 <= i < |pairs| && IsToken(slots[k].content) && pairs[i].token <= slots[k].content ==>
        IsReplacedBy(slots[k].content, pairs, i)
  }

  lemma PrefixOccurs(u: string, token: string)
    ensures token <= u ==> OccursAt(u, token, 0)
  {
    if token <= u {
      assert u[0..|token|] == token;
    }
  }

  lemma FreeIsNoToken(u: string, token: string)
    requires IsFree(u) && IsToken(token)
    ensures !(token <= u) && u != token
  {
    PrefixOccurs(u, token);
    TokensHaveMark(token);
    TokenIsMarked(u, token, 0);
  }

  predicate IsOwn(slots: seq<Slot>, token: string) {
    forall k :: 0 <= k < |slots| && token <= slots[k].content ==> slots[k].content == token
  }

  lemma OneValue(content: string, p: Pair)
    ensures ValueOf(content, [p]) == if content == p.token then p.value else content
  {
    assert [p][1..] == [];
  }

  lemma NothingToSubstitute(slots: seq<Slot>, p: Pair)
    requires forall k :: 0 <= k < |slots| ==> slots[k].content != p.token
    ensures Substituted(slots, [p]) == slots
  {
    forall k | 0 <= k < |slots| ensures Substituted(slots, [p])[k] == slots[k] {
      OneValue(slots[k].content, p);
    }
  }

  lemma SubstitutedCons(slot: Slot, rest: seq<Slot>, pairs: seq<Pair>)
    ensures Substituted([slot] + rest, pairs) ==
      [Slot(ValueOf(slot.content, pairs), slot.gap)] + Substituted(rest, pairs)
  {
  }

  lemma {:induction false} ReplacedIsSubstituted(slots: seq<Slot>, p: Pair)
    requires IsTemplate(slots) && TokensDistinct(slots) && IsPlain(p) && IsOwn(slots, p.token)
    ensures Replaced(slots, p.token, p.value) == Substituted(slots, [p])
  {
    if slots != [] {
      var slot, rest := slots[0], slots[1..];
      assert [slot] + rest == slots;
      SubstitutedCons(slot, rest, [p]);
      OneValue(slot.content, p);
      if p.token <= slot.content {
        assert slot.content == p.token && p.value + slot.content[|p.token|..] == p.value;
        NothingToSubstitute(rest, p);
      } else {
        assert IsTemplate(rest) && TokensDistinct(rest) && IsOwn(rest, p.token);
        ReplacedIsSubstituted(rest, p);
      }
    }
  }

  lemma OrderlyOwn(slots: seq<Slot>, pairs: seq<Pair>)
    requires IsTemplate(slots) && pairs != [] && ArePlain(pairs) && IsOrderly(slots, pairs)
    ensures IsOwn(slots, pairs[0].token)
  {
    forall k | 0 <= k < |slots| && pairs[0].token <= slots[k].content
      ensures slots[k].content == pairs[0].token
    {
      if IsFree(slots[k].content) {
        FreeIsNoToken(slots[k].content, pairs[0].token);
      } else {
        assert IsReplacedBy(slots[k].content, pairs, 0);
      }
    }
  }

  lemma StillOrderly(slots: seq<Slot>, pairs: seq<Pair>)
    requires IsTemplate(slots) && pairs != [] && ArePlain(pairs) && IsOrderly(slots, pairs)
    ensures IsOrderly(Substituted(slots, [pairs[0]]), pairs[1..])
  {
    var after, rest := Substituted(slots, [pairs[0]]), pairs[1..];
    forall k, i | 0 <= k < |after| && 0 <= i < |rest| && IsToken(after[k].content) && rest[i].token <= after[k].content
      ensures IsReplacedBy(after[k].content, rest, i)
    {
      var u := after[k].content;
      OneValue(slots[k].content, pairs[0]);
      assert IsPlain(pairs[0]);
      FreeIsNoToken(pairs[0].value, pairs[0].token);
      NotBoth(pairs[0].value);
      assert u == slots[k].content && u != pairs[0].token;
      assert pairs[i + 1] == rest[i];
      assert IsReplacedBy(u, pairs, i + 1);
      var j :| 0 <= j <= i + 1 && pairs[j].token == u;
      assert rest[j - 1].token == u;
    }
  }

  lemma NotBoth(u: string)
    ensures !(IsFree(u) && IsToken(u))
  {
    if IsToken(u) {
      assert OccursAt(u, MARK, 0);
    }
  }

  lemma StillTemplate(slots: seq<Slot>, p: Pair)
    requires IsTemplate(slots) && TokensDistinct(slots) && IsPlain(p)
    ensures IsTemplate(Substituted(slots, [p])) && TokensDistinct(Substituted(slots, [p]))
  {
    NotBoth(p.value);
    forall k | 0 <= k < |slots|
      ensures Substituted(slots, [p])[k].content == slots[k].content || Substituted(slots, [p])[k].content == p.value
    {
      OneValue(slots[k].content, p);
    }
  }

  lemma SubstitutedInSteps(slots: seq<Slot>, pairs: seq<Pair>)
    requires pairs != [] && ArePlain(pairs)
    ensures Substituted(Substituted(slots, [pairs[0]]), pairs[1..]) == Substituted(slots, pairs)
  {
    forall k | 0 <= k < |slots|
      ensures ValueOf(ValueOf(slots[k].content, [pairs[0]]), pairs[1..]) == ValueOf(slots[k].content, pairs)
    {
      OneValue(slots[k].content, pairs[0]);
      assert IsPlain(pairs[0]);
      FreeHasNoValue(pairs[0].value, pairs[1..]);
    }
  }

  lemma {:induction false} FreeHasNoValue(u: string, pairs: seq<Pair>)
    requires IsFree(u) && ArePlain(pairs)
    ensures ValueOf(u, pairs) == u
    decreases |pairs|
  {
    if pairs != [] {
      assert IsPlain(pairs[0]);
      FreeIsNoToken(u, pairs[0].token);
      FreeHasNoValue(u, pairs[1..]);
    }
  }

  predicate IsHead(head: string) {
    IsFree(head) && (head != "" ==> !IsTokenChar(head[|head| - 1]))
  }

  lemma ReplaceInTemplate(head: string, slots: seq<Slot>, token: string, value: string)
    requires IsHead(head) && IsTemplate(slots) && IsToken(token) && IsVerbatim(value)
    ensures Replace(head + Flat(slots), token, value) == head + Flat(Replaced(slots, token, value))
  {
    forall i: nat | i < |head| ensures !OccursAt(head + Flat(slots), token, i) {
      TokensHaveMark(token);
      NoTokenBegins(head, Flat(slots), token, i);
    }
    ReplaceBehind(head, Flat(slots), token, value);
    ReplaceInSlots(slots, token, value);
  }

  /** Main result: the chain of replacements is the simultaneous substitution. */
  lemma {:induction false} FillIsSubstitution(head: string, slots: seq<Slot>, pairs: seq<Pair>)
    requires IsHead(head) && IsTemplate(slots) && TokensDistinct(slots)
    requires ArePlain(pairs) && IsOrderly(slots, pairs)
    ensures Fill(head + Flat(slots), pairs) == head + Flat(Substituted(slots, pairs))
    decreases |pairs|
  {
    if pairs == [] {
      assert Substituted(slots, pairs) == slots;
    } else {
      var p, after := pairs[0], Substituted(slots, [pairs[0]]);
      assert IsPlain(p);
      OrderlyOwn(slots, pairs);
      ReplaceInTemplate(head, slots, p.token, p.value);
      ReplacedIsSubstituted(slots, p);
      StillTemplate(slots, p);
      StillOrderly(slots, pairs);
      FillIsSubstitution(head, after, pairs[1..]);
      SubstitutedInSteps(slots, pairs);
    }
  }

  /** In the wrong order, the longer token takes the shorter one's value and leaves its own end behind. */
  lemma ShorterTokenFirst(head: string, slots: seq<Slot>, p: Pair)
    requires IsHead(head) && IsTemplate(slots) && IsPlain(p) && slots != []
    requires p.token < slots[0].content
    ensures Fill(head + Flat(slots), [p])
      == head + (p.value + slots[0].content[|p.token|..] + (slots[0].gap + Flat(slots[1..])))
  {
    ReplaceInTemplate(head, slots, p.token, p.value);
    var after := Replaced(slots, p.token, p.value);
    assert after[1..] == slots[1..] && [p][1..] == [];
    assert Fill(Replace(head + Flat(slots), p.token, p.value), []) == Replace(head + Flat(slots), p.token, p.value);
  }

  // ---- Tokens that are left for later ----------------------------------------------------------

  /** How often `t` occurs in `s`. */
  function Count(s: string, t: string): nat {
    if s == "" then 0 else (if t <= s then 1 else 0) + Count(s[1..], t)
  }

  function Holders(slots: seq<Slot>, token: string): nat {
    if slots == [] then 0 else (if token <= slots[0].content then 1 else 0) + Holders(slots[1..], token)
  }

  lemma {:induction false} CountBehind(p: string, rest: string, t: string)
    requires forall i: nat :: i < |p| ==> !OccursAt(p + rest, t, i)
    ensures Count(p + rest, t) == Count(rest, t)
  {
    if p == "" {
      assert p + rest == rest;
    } else {
      var tail := p[1..];
      assert (p + rest)[1..] == tail + rest;
      PrefixOccurs(p + rest, t);
      forall i: nat | i < |tail| ensures !OccursAt(tail + rest, t, i) {
        OccursBehind([p[0]], tail + rest, t, i);
        assert [p[0]] + (tail + rest) == p + rest;
      }
      CountBehind(tail, rest, t);
    }
  }

  lemma CountToken(u: string, rest: string, token: string)
    requires IsToken(u) && IsToken(token) && token <= u && rest != "" && !IsTokenChar(rest[0])
    ensures Count(u + rest, token) == 1 + Count(rest, token)
  {
    var tail := u[1..];
    assert (u + rest)[1..] == tail + rest;
    assert token <= u + rest;
    forall i: nat | i < |tail| ensures !OccursAt(tail + rest, token, i) {
      TokenInToken(u, rest, token, i + 1);
      OccursBehind([u[0]], tail + rest, token, i);
      assert [u[0]] + (tail + rest) == u + rest;
    }
    CountBehind(tail, rest, token);
  }

  /** A token occurs once for each slot that holds it, or a longer token that starts with it. */
  lemma {:induction false} CountInSlots(slots: seq<Slot>, token: string)
    requires IsTemplate(slots) && IsToken(token)
    ensures Count(Flat(slots), token) == Holders(slots, token)
  {
    if slots != [] {
      var slot, rest := slots[0], slots[1..];
      assert IsTemplate([slot]);
      if token <= slot.content {
        HolderIsToken(slot.content, token);
        CountToken(slot.content, slot.gap + Flat(rest), token);
      } else {
        NothingInContent(slot, Flat(rest), token);
        CountBehind(slot.content, slot.gap + Flat(rest), token);
      }
      NothingInGap(slot, Flat(rest), token);
      CountBehind(slot.gap, Flat(rest), token);
      CountInSlots(rest, token);
    }
  }

  lemma HolderIsToken(u: string, token: string)
    requires (IsFree(u) || IsToken(u)) && IsToken(token) && token <= u
    ensures IsToken(u)
  {
    PrefixOccurs(u, token);
    TokensHaveMark(token);
    TokenIsMarked(u, token, 0);
  }

  lemma CountInTemplate(head: string, slots: seq<Slot>, token: string)
    requires IsHead(head) && IsTemplate(slots) && IsToken(token)
    ensures Count(head + Flat(slots), token) == Holders(slots, token)
  {
    forall i: nat | i < |head| ensures !OccursAt(head + Flat(slots), token, i) {
      TokensHaveMark(token);
      NoTokenBegins(head, Flat(slots), token, i);
    }
    CountBehind(head, Flat(slots), token);
    CountInSlots(slots, token);
  }

  lemma {:induction false} HoldersAfter(slots: seq<Slot>, pairs: seq<Pair>, token: string)
    requires IsTemplate(slots) && ArePlain(pairs) && IsToken(token)
    requires forall k, i :: 0 <= k < |slots| && token <= slots[k].content && 0 <= i < |pairs| ==>
      pairs[i].token != slots[k].content
    ensures Holders(Substituted(slots, pairs), token) == Holders(slots, token)
  {
    if slots != [] {
      assert [slots[0]] + slots[1..] == slots;
      SubstitutedCons(slots[0], slots[1..], pairs);
      ValueKeepsHolder(slots[0].content, pairs, token);
      HoldersAfter(slots[1..], pairs, token);
    }
  }

  lemma {:induction false} ValueKeepsHolder(u: string, pairs: seq<Pair>, token: string)
    requires ArePlain(pairs) && IsToken(token)
    requires token <= u ==> forall i :: 0 <= i < |pairs| ==> pairs[i].token != u
    ensures token <= ValueOf(u, pairs) <==> token <= u
    decreases |pairs|
  {
    if pairs != [] {
      assert IsPlain(pairs[0]);
      FreeIsNoToken(pairs[0].value, token);
      if pairs[0].token != u {
        ValueKeepsHolder(u, pairs[1..], token);
      }
    }
  }

  /** Main result: a token that is not replaced is still there as often as before, whatever the values are. */
  lemma LeftForLater(head: string, slots: seq<Slot>, pairs: seq<Pair>, token: string)
    requires IsHead(head) && IsTemplate(slots) && TokensDistinct(slots)
    requires ArePlain(pairs) && IsOrderly(slots, pairs) && IsToken(token)
    requires forall k, i :: 0 <= k < |slots| && token <= slots[k].content && 0 <= i < |pairs| ==>
      pairs[i].token != slots[k].content
    ensures Count(Fill(head + Flat(slots), pairs), token) == Count(head + Flat(slots), token)
  {
    FillIsSubstitution(head, slots, pairs);
    CountInTemplate(head, slots, token);
    SubstitutedIsTemplate(slots, pairs);
    CountInTemplate(head, Substituted(slots, pairs), token);
    HoldersAfter(slots, pairs, token);
  }

  lemma SubstitutedIsTemplate(slots: seq<Slot>, pairs: seq<Pair>)
    requires IsTemplate(slots) && ArePlain(pairs)
    ensures IsTemplate(Substituted(slots, pairs))
  {
    forall k | 0 <= k < |slots|
      ensures IsFree(ValueOf(slots[k].content, pairs)) || IsToken(ValueOf(slots[k].content, pairs))
    {
      ValueIsFreeOrToken(slots[k].content, pairs);
    }
  }

  lemma {:induction false} ValueIsFreeOrToken(u: string, pairs: seq<Pair>)
    requires (IsFree(u) || IsToken(u)) && ArePlain(pairs)
    ensures IsFree(ValueOf(u, pairs)) || IsToken(ValueOf(u, pairs))
    decreases |pairs|
  {
    if pairs != [] {
      assert IsPlain(pairs[0]);
      ValueIsFreeOrToken(u, pairs[1..]);
    }
  }

  lemma {:induction false} NoHolder(slots: seq<Slot>, token: string)
    requires forall k :: 0 <= k < |slots| ==> !(token <= slots[k].content)
    ensures Holders(slots, token) == 0
  {
    if slots != [] {
      NoHolder(slots[1..], token);
    }
  }

  lemma {:induction false} OneHolder(slots: seq<Slot>, token: string, k: nat)
    requires k < |slots| && forall l :: 0 <= l < |slots| ==> (token <= slots[l].content <==> l == k)
    ensures Holders(slots, token) == 1
  {
    if k == 0 {
      assert token <= slots[0].content;
      NoHolder(slots[1..], token);
    } else {
      assert !(token <= slots[0].content);
      OneHolder(slots[1..], token, k - 1);
    }
  }

  lemma {:induction false} ValueFound(u: string, pairs: seq<Pair>, i: nat)
    requires i < |pairs| && pairs[i].token == u
    requires forall j :: 0 <= j < |pairs| && pairs[j].token == u ==> pairs[j].value == pairs[i].value
    ensures ValueOf(u, pairs) == pairs[i].value
    decreases i
  {
    if pairs[0].token != u {
      ValueFound(u, pairs[1..], i - 1);
    }
  }

  lemma {:induction false} NoValue(u: string, pairs: seq<Pair>)
    requires forall j :: 0 <= j < |pairs| ==> pairs[j].token != u
    ensures ValueOf(u, pairs) == u
    decreases |pairs|
  {
    if pairs != [] {
      NoValue(u, pairs[1..]);
    }
  }
}
