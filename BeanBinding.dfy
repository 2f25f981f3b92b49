/**
  Best-effort binding of untyped request parameters onto an action configuration bean:
  the `smartCopy` helper of the JMX service manager and the per-key loop that calls it.

  Each key names a bean property. A key with no property is ignored. A Collection
  property is cleared and refilled with the tokens of `value.split(",")`; a Map property
  is cleared and refilled from the `;`-tokens of the value, each split on `=` into key
  (part 0) and value (part 1); a scalar is set when it has a setter and accepts a String.
  A null Collection or Map is filled as a fresh object that is never stored back.
*/
module BeanBinding {
  import opened Wrappers
  import opened JavaStrings
  import opened ActionConfigurations

  /** Why binding one key threw. */
  datatype BindError =
    | TypeMismatch             // the setter does not take a String
    | MalformedPair(token: string)  // a map token without a part 1 after splitting on '='

  /** A map token `k=v`: its `=`-split has a part 1. */
  predicate WellFormedPair(token: string)
  {
    |Split(token, '=')| >= 2
  }

  function PairKey(token: string): string
    requires WellFormedPair(token)
  {
    Split(token, '=')[0]
  }

  function PairValue(token: string): string
    requires WellFormedPair(token)
  {
    Split(token, '=')[1]
  }

  /** The pairs of `tokens` put into `m` from left to right; the first malformed token stops it. */
  function PutPairs(m: map<string, string>, tokens: seq<string>): (map<string, string>, Outcome<BindError>)
  {
    if tokens == [] then (m, Pass)
    else
      var (before, outcome) := PutPairs(m, tokens[..|tokens| - 1]);
      var last := tokens[|tokens| - 1];
      if outcome.Fail? then (before, outcome)
      else if !WellFormedPair(last) then (before, Fail(MalformedPair(last)))
      else (before[PairKey(last) := PairValue(last)], Pass)
  }

  /** The property after one `smartCopy`, and whether that call threw. */
  datatype Copy = Copy(field: Field, outcome: Outcome<BindError>)

  /** What `smartCopy(bean, name, value)` does to the property `name` when it exists. */
  function Copied(f: Field, value: string): Copy
  {
    match f
    case Text(w, _) => if w then Copy(Text(w, Some(value)), Pass) else Copy(f, Pass)
    case Flag(w, _) => if w then Copy(f, Fail(TypeMismatch)) else Copy(f, Pass)
    case FileRef(w, _) => if w then Copy(f, Fail(TypeMismatch)) else Copy(f, Pass)
    case Items(live) =>
      if live.None? then Copy(f, Pass) else Copy(Items(Some(Split(value, ','))), Pass)
    case Entries(live) =>
      var (pairs, outcome) := PutPairs(map[], Split(value, ';'));
      Copy(if live.None? then f else Entries(Some(pairs)), outcome)
  }

  /** Every key of `params` that names a property bound once onto `fields`. */
  function BoundFields(fields: map<string, Field>, params: map<string, string>): map<string, Field>
  {
    map k | k in fields :: if k in params then Copied(fields[k], params[k]).field else fields[k]
  }

  /** The property of the same kind, and for a scalar the same writability. */
  predicate SameShape(f: Field, g: Field)
  {
    match f
    case Text(w, _) => g.Text? && g.writable == w
    case Flag(w, _) => g.Flag? && g.writable == w
    case FileRef(w, _) => g.FileRef? && g.writable == w
    case Items(_) => g.Items?
    case Entries(_) => g.Entries?
  }

  /** `keys` lists every key of the set exactly once (an iteration over a key set). */
  ghost predicate Enumerates(keys: seq<string>, s: set<string>)
  {
    && (forall i, j :: 0 <= i < j < |keys| ==> keys[i] != keys[j])
    && (forall k :: k in s <==> k in keys)
  }

  // ---------------------------------------------------------------------------
  // The imperative binder.
  // ---------------------------------------------------------------------------

  /** `smartCopy(bean, propertyName, value)`: returns normally (Pass) or throws (Fail). */
  method SmartCopy(bean: ActionConfiguration, name: string, value: string) returns (o: Outcome<BindError>)
    modifies bean
    ensures name !in old(bean.fields) ==> bean.fields == old(bean.fields) && o == Pass
    ensures name in old(bean.fields) ==>
      var c := Copied(old(bean.fields)[name], value);
      bean.fields == old(bean.fields)[name := c.field] && o == c.outcome
  {
    if name !in bean.fields {
      return Pass;
    }
    match bean.fields[name]
    case Items(_) =>
      CopyItems(bean, name, value);
      o := Pass;
    case Entries(_) =>
      o := CopyEntries(bean, name, value);
    case Text(w, _) =>
      if w {
        bean.fields := bean.fields[name := Text(w, Some(value))];
      }
      o := Pass;
    case Flag(w, _) =>
      o := if w then Fail(TypeMismatch) else Pass;
    case FileRef(w, _) =>
      o := if w then Fail(TypeMismatch) else Pass;
  }

  /** The Collection branch: a live collection is cleared and gets the ','-tokens in order. */
  method CopyItems(bean: ActionConfiguration, name: string, value: string)
    requires name in bean.fields && bean.fields[name].Items?
    modifies bean
    ensures bean.fields == old(bean.fields)[name := Copied(old(bean.fields)[name], value).field]
  {
    var live := bean.fields[name].items;
    var tokens := Split(value, ',');
    if live.Some? {
      bean.fields := bean.fields[name := Items(Some([]))];
    }
    for i := 0 to |tokens|
      invariant live.Some? ==> bean.fields == old(bean.fields)[name := Items(Some(tokens[..i]))]
      invariant live.None? ==> bean.fields == old(bean.fields)
    {
      if live.Some? {
        var current := bean.fields[name].items.value;
        bean.fields := bean.fields[name := Items(Some(current + [tokens[i]]))];
        assert tokens[..i + 1] == tokens[..i] + [tokens[i]];
      }
    }
    assert tokens[..|tokens|] == tokens;
    assert live.None? ==> old(bean.fields)[name := old(bean.fields)[name]] == old(bean.fields);
  }

  /**
    The Map branch: a live map is cleared and gets the pairs of the ';'-tokens in order;
    the first token without a part 1 throws, leaving the pairs put before it.
  */
  method CopyEntries(bean: ActionConfiguration, name: string, value: string) returns (o: Outcome<BindError>)
    requires name in bean.fields && bean.fields[name].Entries?
    modifies bean
    ensures var c := Copied(old(bean.fields)[name], value);
      bean.fields == old(bean.fields)[name := c.field] && o == c.outcome
  {
    var live := bean.fields[name].entries;
    var tokens := Split(value, ';');
    if live.Some? {
      bean.fields := bean.fields[name := Entries(Some(map[]))];
    }
    for i := 0 to |tokens|
      invariant PutPairs(map[], tokens[..i]).1 == Pass
      invariant live.Some? ==> bean.fields == old(bean.fields)[name := Entries(Some(PutPairs(map[], tokens[..i]).0))]
      invariant live.None? ==> bean.fields == old(bean.fields)
    {
      PutPairsStep(map[], tokens, i);
      var kv := Split(tokens[i], '=');
      if |kv| < 2 {
        PutPairsFailureSticks(map[], tokens, i + 1);
        assert live.None? ==> old(bean.fields)[name := old(bean.fields)[name]] == old(bean.fields);
        return Fail(MalformedPair(tokens[i]));
      }
      if live.Some? {
        var current := bean.fields[name].entries.value;
        bean.fields := bean.fields[name := Entries(Some(current[kv[0] := kv[1]]))];
      }
    }
    assert tokens[..|tokens|] == tokens;
    assert live.None? ==> old(bean.fields)[name := old(bean.fields)[name]] == old(bean.fields);
    o := Pass;
  }

  /**
    The key loop of the manager: every key is copied in the order the key set's iterator
    gives, and an exception from one key is caught so that the remaining keys are still
    bound. The result does not depend on that order.
  */
  method BindAll(bean: ActionConfiguration, params: map<string, string>, keyOrder: seq<string>)
    requires Enumerates(keyOrder, params.Keys)
    modifies bean
    ensures bean.fields == BoundFields(old(bean.fields), params)
  {
    var i := 0;
    while i < |keyOrder|
      invariant 0 <= i <= |keyOrder|
      invariant bean.fields.Keys == old(bean.fields).Keys
      invariant forall k :: k in bean.fields ==>
        bean.fields[k] == if k in keyOrder[..i] then Copied(old(bean.fields)[k], params[k]).field else old(bean.fields)[k]
    {
      var key := keyOrder[i];
      assert key !in keyOrder[..i];
      var outcome := SmartCopy(bean, key, params[key]);
      // a thrown exception is logged and the loop goes on with the next key
      assert keyOrder[..i + 1] == keyOrder[..i] + [key];
      i := i + 1;
    }
    assert keyOrder[..i] == keyOrder;
  }

  // ---------------------------------------------------------------------------
  // What binding one property means.
  // ---------------------------------------------------------------------------

  /** Once putting pairs has failed, later tokens change nothing. */
  lemma {:induction false} PutPairsFailureSticks(m: map<string, string>, tokens: seq<string>, j: nat)
    requires j <= |tokens|
    requires PutPairs(m, tokens[..j]).1.Fail?
    ensures PutPairs(m, tokens) == PutPairs(m, tokens[..j])
    decreases |tokens| - j
  {
    if j < |tokens| {
      assert tokens[..j + 1][..j] == tokens[..j];
      PutPairsFailureSticks(m, tokens, j + 1);
    } else {
      assert tokens[..j] == tokens;
    }
  }

  /** One more token after a prefix that put its pairs: a pair is put, a malformed token throws. */
  lemma PutPairsStep(m: map<string, string>, tokens: seq<string>, i: nat)
    requires i < |tokens| && PutPairs(m, tokens[..i]).1 == Pass
    ensures PutPairs(m, tokens[..i + 1])
      == if WellFormedPair(tokens[i])
         then (PutPairs(m, tokens[..i]).0[PairKey(tokens[i]) := PairValue(tokens[i])], Pass)
         else (PutPairs(m, tokens[..i]).0, Fail(MalformedPair(tokens[i])))
  {
    assert tokens[..i + 1][..i] == tokens[..i];
  }

  /**
    A malformed token throws after the earlier tokens were put: the map holds exactly
    the pairs before the first malformed token and the error names that token.
  */
  lemma PutPairsStopsAtFirstMalformed(m: map<string, string>, tokens: seq<string>, i: nat)
    requires i < |tokens| && !WellFormedPair(tokens[i])
    requires forall j :: 0 <= j < i ==> WellFormedPair(tokens[j])
    ensures PutPairs(m, tokens[..i]).1 == Pass
    ensures PutPairs(m, tokens) == (PutPairs(m, tokens[..i]).0, Fail(MalformedPair(tokens[i])))
  {
    PutPairsPass(m, tokens[..i]);
    assert tokens[..i + 1][..i] == tokens[..i];
    PutPairsFailureSticks(m, tokens, i + 1);
  }

  /** The keys named by the well-formed tokens. */
  function TokenKeys(tokens: seq<string>): set<string>
  {
    set j | 0 <= j < |tokens| && WellFormedPair(tokens[j]) :: PairKey(tokens[j])
  }

  lemma TokenKeysSnoc(tokens: seq<string>)
    requires tokens != []
    ensures var n := |tokens| - 1;
      TokenKeys(tokens) == TokenKeys(tokens[..n]) + (if WellFormedPair(tokens[n]) then {PairKey(tokens[n])} else {})
  {
    TokenKeysOfPrefix(tokens);
    TokenKeysOfLast(tokens);
  }

  /** The keys of the tokens before the last are keys of all the tokens. */
  lemma TokenKeysOfPrefix(tokens: seq<string>)
    requires tokens != []
    ensures TokenKeys(tokens[..|tokens| - 1]) <= TokenKeys(tokens)
  {
    var init := tokens[..|tokens| - 1];
    forall k | k in TokenKeys(init)
      ensures k in TokenKeys(tokens)
    {
      var j :| 0 <= j < |init| && WellFormedPair(init[j]) && PairKey(init[j]) == k;
      assert init[j] == tokens[j];
    }
  }

  /** A key of the tokens is a key of those before the last, or the last token's own. */
  lemma TokenKeysOfLast(tokens: seq<string>)
    requires tokens != []
    ensures var n := |tokens| - 1;
      TokenKeys(tokens) <= TokenKeys(tokens[..n]) + (if WellFormedPair(tokens[n]) then {PairKey(tokens[n])} else {})
  {
    var n := |tokens| - 1;
    var init := tokens[..n];
    forall k | k in TokenKeys(tokens)
      ensures k in TokenKeys(init) || (WellFormedPair(tokens[n]) && k == PairKey(tokens[n]))
    {
      var j :| 0 <= j < |tokens| && WellFormedPair(tokens[j]) && PairKey(tokens[j]) == k;
      if j < n {
        assert init[j] == tokens[j];
        assert k in TokenKeys(init);
      }
    }
  }

  /** With only well-formed tokens nothing throws. */
  lemma {:induction false} PutPairsPass(m: map<string, string>, tokens: seq<string>)
    requires forall j :: 0 <= j < |tokens| ==> WellFormedPair(tokens[j])
    ensures PutPairs(m, tokens).1 == Pass
  {
    if tokens != [] {
      PutPairsPass(m, tokens[..|tokens| - 1]);
    }
  }

  /** With only well-formed tokens nothing throws, and the keys are the old ones plus one per token. */
  lemma {:induction false} PutPairsKeys(m: map<string, string>, tokens: seq<string>)
    requires forall j :: 0 <= j < |tokens| ==> WellFormedPair(tokens[j])
    ensures PutPairs(m, tokens).1 == Pass
    ensures PutPairs(m, tokens).0.Keys == m.Keys + TokenKeys(tokens)
  {
    PutPairsPass(m, tokens);
    if tokens != [] {
      var n := |tokens| - 1;
      PutPairsKeys(m, tokens[..n]);
      TokenKeysSnoc(tokens);
    }
  }

  /**
    With only well-formed tokens each key holds the value of the LAST token naming it (a
    later duplicate overwrites an earlier one).
  */
  lemma {:induction false} PutPairsLastWins(m: map<string, string>, tokens: seq<string>, j: nat)
    requires forall i :: 0 <= i < |tokens| ==> WellFormedPair(tokens[i])
    requires j < |tokens|
    requires forall l :: j < l < |tokens| ==> PairKey(tokens[l]) != PairKey(tokens[j])
    ensures PairKey(tokens[j]) in PutPairs(m, tokens).0
    ensures PutPairs(m, tokens).0[PairKey(tokens[j])] == PairValue(tokens[j])
  {
    var n := |tokens| - 1;
    PutPairsPass(m, tokens[..n]);
    if j < n {
      var init := tokens[..n];
      assert init[j] == tokens[j];
      assert forall l :: j < l < n ==> init[l] == tokens[l];
      PutPairsLastWins(m, init, j);
    }
  }

  /** Keys that no token names keep the value they had. */
  lemma {:induction false} PutPairsUntouched(m: map<string, string>, tokens: seq<string>, k: string)
    requires forall i :: 0 <= i < |tokens| ==> WellFormedPair(tokens[i])
    requires k in m && k !in TokenKeys(tokens)
    ensures k in PutPairs(m, tokens).0 && PutPairs(m, tokens).0[k] == m[k]
  {
    if tokens != [] {
      var n := |tokens| - 1;
      TokenKeysSnoc(tokens);
      PutPairsKeys(m, tokens[..n]);
      PutPairsUntouched(m, tokens[..n], k);
    }
  }

  /**
    Binding a Collection property that exists: the old content is gone and the new
    content is the comma-free tokens of the value, in order, with the inner empty tokens
    kept and the trailing ones dropped; nothing throws.
  */
  lemma CollectionBinding(items: seq<string>, value: string)
    ensures var c := Copied(Items(Some(items)), value);
      && c.outcome == Pass
      && c.field.Items? && c.field.items.Some?
      && var tokens := c.field.items.value;
         && |tokens| <= |Pieces(value, ',')|
         && (forall t :: t in tokens ==> ',' !in t)
         && tokens == Pieces(value, ',')[..|tokens|]
         && (value != [] && value[|value| - 1] != ',' ==>
               |tokens| == Count(value, ',') + 1 && Join(tokens, ',') == value)
  {
    SplitTokens(value, ',');
    if value != [] && value[|value| - 1] != ',' {
      SplitKeepsInnerEmptyTokens(value, ',');
      JoinPieces(value, ',');
    }
  }

  /** A null Collection or Map property: a fresh object is filled and dropped, the bean keeps null. */
  lemma NullPropertyUnchanged(f: Field, value: string)
    requires f == Items(None) || f == Entries(None)
    ensures Copied(f, value).field == f
    ensures f.Items? ==> Copied(f, value).outcome == Pass
  {
  }

  /**
    Binding a Map property that exists, with a value whose `;`-tokens are all key=value
    pairs: the old entries are gone, there is one key per token, the last duplicate wins.
  */
  lemma MapBindingWellFormed(entries: map<string, string>, value: string)
    requires var tokens := Split(value, ';'); forall j :: 0 <= j < |tokens| ==> WellFormedPair(tokens[j])
    ensures var tokens := Split(value, ';');
      var c := Copied(Entries(Some(entries)), value);
      && c.outcome == Pass
      && c.field.Entries? && c.field.entries.Some?
      && var r := c.field.entries.value;
         && r.Keys == TokenKeys(tokens)
         && (forall j :: 0 <= j < |tokens| && (forall l :: j < l < |tokens| ==> PairKey(tokens[l]) != PairKey(tokens[j]))
               ==> r[PairKey(tokens[j])] == PairValue(tokens[j]))
  {
    var tokens := Split(value, ';');
    PutPairsKeys(map[], tokens);
    forall j | 0 <= j < |tokens| && (forall l :: j < l < |tokens| ==> PairKey(tokens[l]) != PairKey(tokens[j]))
      ensures PutPairs(map[], tokens).0[PairKey(tokens[j])] == PairValue(tokens[j])
    {
      PutPairsLastWins(map[], tokens, j);
    }
  }

  /**
    Binding a Map property that exists, with a malformed token: the call throws naming the
    first malformed token, and the map stays cleared except for the pairs before it.
  */
  lemma MapBindingMalformed(entries: map<string, string>, value: string, i: nat)
    requires var tokens := Split(value, ';');
      && i < |tokens| && !WellFormedPair(tokens[i])
      && forall j :: 0 <= j < i ==> WellFormedPair(tokens[j])
    ensures var tokens := Split(value, ';');
      var c := Copied(Entries(Some(entries)), value);
      && c.outcome == Fail(MalformedPair(tokens[i]))
      && c.field == Entries(Some(PutPairs(map[], tokens[..i]).0))
      && PutPairs(map[], tokens[..i]).0.Keys == TokenKeys(tokens[..i])
  {
    var tokens := Split(value, ';');
    PutPairsStopsAtFirstMalformed(map[], tokens, i);
    PutPairsKeys(map[], tokens[..i]);
  }

  /**
    Scalars: a writable String property takes the value; a writable property of another
    type throws a type mismatch and keeps its value; a read-only one is skipped silently.
  */
  lemma ScalarBinding(f: Field, value: string)
    requires f.Text? || f.Flag? || f.FileRef?
    ensures var c := Copied(f, value);
      && (f.Text? && f.writable ==> c == Copy(Text(true, Some(value)), Pass))
      && (!f.Text? && f.writable ==> c == Copy(f, Fail(TypeMismatch)))
      && (!f.writable ==> c == Copy(f, Pass))
  {
  }

  /** Binding never changes a property's kind or writability, so the bean keeps its schema. */
  lemma BindingKeepsSchema(fields: map<string, Field>, params: map<string, string>)
    ensures BoundFields(fields, params).Keys == fields.Keys
    ensures forall k :: k in fields ==> SameShape(fields[k], BoundFields(fields, params)[k])
    ensures Shaped(fields) ==> Shaped(BoundFields(fields, params))
  {
  }

  /** Keys that name no property, and properties no key names, are left as they were. */
  lemma UnnamedPropertiesUnchanged(fields: map<string, Field>, params: map<string, string>, k: string)
    requires k in fields && k !in params
    ensures BoundFields(fields, params)[k] == fields[k]
  {
  }
}
