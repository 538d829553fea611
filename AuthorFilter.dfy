/** Keeping the messages of the dominant author (`filterUserMessages`). */
module AuthorFilter {
  import opened Wrappers
  import opened Strings
  import opened Messages
  import opened Tally

  /** `m.author` is truthy: present and not empty. */
  predicate HasAuthor(m: Message) {
    m.author.Some? && m.author.value != []
  }

  /** The counting key of an author: its name under the host's
      `toLowerCase`, given as `lower`. JavaScript folds every Unicode letter
      (`"JOSÉ"` and `"José"` share a key), so the folding is a parameter
      rather than the ASCII-only `Lower` of the pattern matchers. */
  function AuthorKey(lower: string -> string, m: Message): string {
    lower(m.author.GetOr(""))
  }

  /** `messages.filter(m => m.author)`. */
  function Authored(ms: seq<Message>): (r: seq<Message>)
    ensures |r| <= |ms|
    ensures forall i :: 0 <= i < |r| ==> HasAuthor(r[i])
  {
    if ms == [] then []
    else Authored(ms[..|ms| - 1]) + (if HasAuthor(ms[|ms| - 1]) then [ms[|ms| - 1]] else [])
  }

  function Keys(lower: string -> string, ms: seq<Message>): (r: seq<string>)
    ensures |r| == |ms|
    ensures forall i :: 0 <= i < |ms| ==> r[i] == AuthorKey(lower, ms[i])
  {
    if ms == [] then [] else [AuthorKey(lower, ms[0])] + Keys(lower, ms[1..])
  }

  /** The `maxAuthor`/`maxCount` scan: a key replaces the current best only
      with a strictly greater count, so the first key in `order` with the
      largest count wins. */
  function Best(order: seq<string>, keys: seq<string>): (r: (string, nat))
    requires forall i, j :: 0 <= i < j < |order| ==> order[i] != order[j]
    ensures forall i :: 0 <= i < |order| ==> CountOf(keys, order[i]) <= r.1
    ensures r.1 > 0 ==> r.0 in order && r.1 == CountOf(keys, r.0)
    ensures r.1 > 0 ==> forall i :: 0 <= i < |order| && order[i] == r.0 ==>
              forall j :: 0 <= j < i ==> CountOf(keys, order[j]) < r.1
    ensures r.1 == 0 ==> r.0 == ""
  {
    if order == [] then ("", 0)
    else
      var b := Best(order[..|order| - 1], keys);
      var k := order[|order| - 1];
      var c := CountOf(keys, k);
      assert b.1 > 0 ==> b.0 in order[..|order| - 1];
      if c > b.1 then (k, c) else b
  }

  /** `!m.author || m.author.toLowerCase() === top`. */
  predicate Keep(lower: string -> string, m: Message, top: string) {
    !HasAuthor(m) || AuthorKey(lower, m) == top
  }

  function KeepOnly(lower: string -> string, ms: seq<Message>, top: string): (r: seq<Message>)
    ensures |r| <= |ms|
    ensures forall i :: 0 <= i < |r| ==> Keep(lower, r[i], top)
  {
    if ms == [] then []
    else KeepOnly(lower, ms[..|ms| - 1], top) + (if Keep(lower, ms[|ms| - 1], top) then [ms[|ms| - 1]] else [])
  }

  /** What `filterUserMessages` returns. The ratio test `maxCount /
      withAuthor.length < 0.3` is stated exactly as `10 * maxCount < 3 *
      withAuthor.length`. */
  function FilterSpec(lower: string -> string, ms: seq<Message>): seq<Message> {
    var keys := Keys(lower, Authored(ms));
    if keys == [] then ms
    else
      var best := Best(Order(keys), keys);
      if 10 * best.1 < 3 * |keys| then ms else KeepOnly(lower, ms, best.0)
  }

  /** `filterUserMessages`. */
  method FilterUserMessages(lower: string -> string, messages: seq<Message>) returns (result: seq<Message>)
    ensures result == FilterSpec(lower, messages)
  {
    var withAuthor := Authored(messages);
    if |withAuthor| == 0 {
      return messages;
    }
    var counts, order := CountAuthors(lower, withAuthor);
    var maxAuthor, maxCount := MostFrequent(order, counts, Keys(lower, withAuthor));
    if 10 * maxCount < 3 * |withAuthor| {
      return messages;
    }
    result := KeepOnly(lower, messages, maxAuthor);
  }

  /** The counting loop of `filterUserMessages`: the `Map` from lower-cased
      author to count, and its keys in insertion order. */
  method CountAuthors(lower: string -> string, withAuthor: seq<Message>) returns (counts: map<string, nat>, order: seq<string>)
    ensures counts == Counts(Keys(lower, withAuthor))
    ensures order == Order(Keys(lower, withAuthor))
  {
    ghost var keys := Keys(lower, withAuthor);
    counts := map[];
    order := [];
    var i := 0;
    assert keys[..0] == [];
    while i < |withAuthor|
      invariant 0 <= i <= |withAuthor|
      invariant counts == Counts(keys[..i])
      invariant order == Order(keys[..i])
    {
      var key := AuthorKey(lower, withAuthor[i]);
      assert keys[..i + 1] == keys[..i] + [key];
      OrderStep(keys[..i], key);
      CountsStep(keys[..i], key);
      if key !in counts {
        order := order + [key];
      }
      counts := counts[key := (if key in counts then counts[key] else 0) + 1];
      i := i + 1;
    }
    assert keys[..i] == keys;
  }

  /** The `maxAuthor`/`maxCount` loop of `filterUserMessages`. */
  method MostFrequent(order: seq<string>, counts: map<string, nat>, ghost keys: seq<string>)
    returns (maxAuthor: string, maxCount: nat)
    requires counts == Counts(keys) && order == Order(keys)
    ensures (maxAuthor, maxCount) == Best(order, keys)
  {
    maxAuthor := "";
    maxCount := 0;
    var j := 0;
    assert order[..0] == [];
    while j < |order|
      invariant 0 <= j <= |order|
      invariant (maxAuthor, maxCount) == Best(order[..j], keys)
    {
      var author := order[j];
      var count := counts[author];
      ghost var prefix := order[..j + 1];
      assert prefix[..|prefix| - 1] == order[..j] && prefix[|prefix| - 1] == author;
      if count > maxCount {
        maxCount := count;
        maxAuthor := author;
      }
      j := j + 1;
    }
    assert order[..j] == order;
  }

  /** The filter only drops messages: its result is the input with some
      authored messages removed, and every authorless message survives, in
      order. */
  lemma {:induction false} KeepOnlyKeepsAuthorless(lower: string -> string, ms: seq<Message>, top: string)
    ensures Authorless(KeepOnly(lower, ms, top)) == Authorless(ms)
    ensures multiset(KeepOnly(lower, ms, top)) <= multiset(ms)
  {
    if ms != [] {
      var init := ms[..|ms| - 1];
      KeepOnlyKeepsAuthorless(lower, init, top);
      assert ms == init + [ms[|ms| - 1]];
      AuthorlessAppend(KeepOnly(lower, init, top), if Keep(lower, ms[|ms| - 1], top) then [ms[|ms| - 1]] else []);
      AuthorlessAppend(init, [ms[|ms| - 1]]);
    }
  }

  /** `messages.filter(m => !m.author)`. */
  function Authorless(ms: seq<Message>): seq<Message> {
    if ms == [] then []
    else Authorless(ms[..|ms| - 1]) + (if HasAuthor(ms[|ms| - 1]) then [] else [ms[|ms| - 1]])
  }

  lemma {:induction false} AuthorlessAppend(a: seq<Message>, b: seq<Message>)
    ensures Authorless(a + b) == Authorless(a) + Authorless(b)
    decreases |b|
  {
    if b == [] {
      assert a + b == a;
    } else {
      var b' := b[..|b| - 1];
      assert (a + b)[..|a + b| - 1] == a + b';
      AuthorlessAppend(a, b');
    }
  }

  /** The kept author is a most frequent one, and, among equally frequent
      authors, the one seen first; authorless messages are always kept. */
  lemma FilterKeepsDominantAuthor(lower: string -> string, ms: seq<Message>)
    ensures Authorless(FilterSpec(lower, ms)) == Authorless(ms)
    ensures FilterSpec(lower, ms) == ms || exists top ::
              FilterSpec(lower, ms) == KeepOnly(lower, ms, top)
              && 10 * CountOf(Keys(lower, Authored(ms)), top) >= 3 * |Keys(lower, Authored(ms))|
              && (forall k :: CountOf(Keys(lower, Authored(ms)), k) <= CountOf(Keys(lower, Authored(ms)), top))
  {
    var keys := Keys(lower, Authored(ms));
    if keys != [] {
      var order := Order(keys);
      var best := Best(order, keys);
      KeepOnlyKeepsAuthorless(lower, ms, best.0);
      if 10 * best.1 >= 3 * |keys| {
        assert best.1 > 0;
        forall k ensures CountOf(keys, k) <= CountOf(keys, best.0) {
          if k in keys {
            var i :| 0 <= i < |order| && order[i] == k;
          }
        }
      }
    }
  }

  /** With fewer than 30% of authored messages from any one author the input
      comes back unchanged. */
  lemma FilterBelowThreshold(lower: string -> string, ms: seq<Message>)
    requires forall k :: 10 * CountOf(Keys(lower, Authored(ms)), k) < 3 * |Keys(lower, Authored(ms))|
    ensures FilterSpec(lower, ms) == ms
  {
    var keys := Keys(lower, Authored(ms));
    if keys != [] {
      var best := Best(Order(keys), keys);
      if best.1 > 0 {
        assert 10 * CountOf(keys, best.0) < 3 * |keys|;
      }
    }
  }

  /** Filtering twice is filtering once. */
  lemma FilterIdempotent(lower: string -> string, ms: seq<Message>)
    ensures FilterSpec(lower, FilterSpec(lower, ms)) == FilterSpec(lower, ms)
  {
    var keys := Keys(lower, Authored(ms));
    if keys != [] {
      var best := Best(Order(keys), keys);
      if 10 * best.1 >= 3 * |keys| {
        assert best.1 > 0 && best.0 in keys;
        assert FilterSpec(lower, ms) == KeepOnly(lower, ms, best.0);
        FilterOfKept(lower, ms, best.0);
      }
    }
  }

  /** Once only `top` is left among the authors, the filter keeps
      everything. */
  lemma FilterOfKept(lower: string -> string, ms: seq<Message>, top: string)
    requires top in Keys(lower, Authored(ms))
    ensures FilterSpec(lower, KeepOnly(lower, ms, top)) == KeepOnly(lower, ms, top)
  {
    var kept := KeepOnly(lower, ms, top);
    var keys2 := Keys(lower, Authored(kept));
    KeysOfKept(lower, ms, top);
    assert top in keys2;
    forall i | 0 <= i < |keys2| ensures keys2[i] == top {
      assert keys2[i] in keys2;
    }
    OnlyKey(keys2, top);
    KeepOnlyTwice(lower, ms, top);
  }

  lemma AuthoredKeysStep(lower: string -> string, ms: seq<Message>)
    requires ms != []
    ensures Keys(lower, Authored(ms)) == Keys(lower, Authored(ms[..|ms| - 1]))
              + (if HasAuthor(ms[|ms| - 1]) then [AuthorKey(lower, ms[|ms| - 1])] else [])
  {
    var m := ms[|ms| - 1];
    var a := Authored(ms[..|ms| - 1]);
    var tail := if HasAuthor(m) then [m] else [];
    assert Authored(ms) == a + tail;
    KeysAppend(lower, a, tail);
    assert Keys(lower, tail) == if HasAuthor(m) then [AuthorKey(lower, m)] else [];
  }

  lemma KeysAppend(lower: string -> string, a: seq<Message>, b: seq<Message>)
    ensures Keys(lower, a + b) == Keys(lower, a) + Keys(lower, b)
  {
    assert |Keys(lower, a + b)| == |Keys(lower, a) + Keys(lower, b)|;
    forall i | 0 <= i < |a + b| ensures Keys(lower, a + b)[i] == (Keys(lower, a) + Keys(lower, b))[i] {
      if i < |a| {
        assert (a + b)[i] == a[i];
        assert (Keys(lower, a) + Keys(lower, b))[i] == Keys(lower, a)[i];
      } else {
        assert (a + b)[i] == b[i - |a|];
        assert (Keys(lower, a) + Keys(lower, b))[i] == Keys(lower, b)[i - |a|];
      }
    }
  }

  /** After keeping only `top`, the authored keys are all `top`, and there is
      at least one when `top` occurred. */
  lemma {:induction false} KeysOfKept(lower: string -> string, ms: seq<Message>, top: string)
    ensures forall k :: k in Keys(lower, Authored(KeepOnly(lower, ms, top))) ==> k == top
    ensures top in Keys(lower, Authored(ms)) ==> top in Keys(lower, Authored(KeepOnly(lower, ms, top)))
  {
    if ms != [] {
      var init := ms[..|ms| - 1];
      var m := ms[|ms| - 1];
      KeysOfKept(lower, init, top);
      var kept := KeepOnly(lower, ms, top);
      AuthoredKeysStep(lower, ms);
      if Keep(lower, m, top) {
        assert kept[..|kept| - 1] == KeepOnly(lower, init, top) && kept[|kept| - 1] == m;
        AuthoredKeysStep(lower, kept);
      } else {
        assert kept == KeepOnly(lower, init, top);
      }
    }
  }

  /** When every key is `top`, the scan picks `top` with the full count. */
  lemma OnlyKey(keys: seq<string>, top: string)
    requires keys != [] && forall i :: 0 <= i < |keys| ==> keys[i] == top
    ensures Order(keys) == [top]
    ensures Best(Order(keys), keys) == (top, |keys|)
  {
    OrderOfOneKey(keys, top);
    CountAll(keys, top);
    var order: seq<string> := [top];
    assert order[..0] == [];
    assert Best(order, keys) == (top, CountOf(keys, top));
  }

  lemma {:induction false} KeepOnlyTwice(lower: string -> string, ms: seq<Message>, top: string)
    ensures KeepOnly(lower, KeepOnly(lower, ms, top), top) == KeepOnly(lower, ms, top)
  {
    if ms != [] {
      var init := ms[..|ms| - 1];
      KeepOnlyTwice(lower, init, top);
      var kept := KeepOnly(lower, ms, top);
      if Keep(lower, ms[|ms| - 1], top) {
        assert kept[..|kept| - 1] == KeepOnly(lower, init, top);
      } else {
        assert kept == KeepOnly(lower, init, top);
      }
    }
  }
}
