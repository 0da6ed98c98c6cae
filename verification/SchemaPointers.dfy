/**
 The pointers of every property declared anywhere in a schema document.

 A schema declares its fields under one key, `properties`; everything here holds for any
 key `p` that needs no escaping and is no array index.
 */
module SchemaPointers {
  import opened Orderings
  import opened Json
  import opened JsonPointer

  const PROPERTIES := "properties"

  type Tokens = seq<string>

  /** The declared names of an object: none unless its `p` member is an object. */
  function Names(p: string, m: map<string, Value>): set<string> {
    if p in m && m[p].Object? then m[p].members.Keys else {}
  }

  /** The token list leads to a property declaration. */
  ghost predicate Declared(p: string, v: Value, ts: Tokens)
    decreases |ts|
  {
    match v
    case Object(m) => Among(p, m, ts, Names(p, m)) || Inside(p, m, ts, m.Keys - {p})
    case Array(items) => InItems(p, items, ts, |items|)
    case _ => false
  }

  /** A declaration under one of these names, or inside the schema it declares. */
  ghost predicate Among(p: string, m: map<string, Value>, ts: Tokens, names: set<string>)
    decreases |ts|, 0
  {
    && |ts| >= 2 && ts[0] == p && ts[1] in names && ts[1] in Names(p, m)
    && (|ts| == 2 || Declared(p, m[p].members[ts[1]], ts[2..]))
  }

  /** A declaration inside one of these members. */
  ghost predicate Inside(p: string, m: map<string, Value>, ts: Tokens, keys: set<string>)
    decreases |ts|, 0
  {
    |ts| >= 1 && ts[0] in keys && ts[0] in m && Declared(p, m[ts[0]], ts[1..])
  }

  /** A declaration inside one of the first `n` elements. */
  ghost predicate InItems(p: string, items: seq<Value>, ts: Tokens, n: nat)
    requires n <= |items|
    decreases |ts|, 0
  {
    |ts| >= 1 && exists i :: 0 <= i < n && ts[0] == Decimal(i) && Declared(p, items[i], ts[1..])
  }

  // ----- token lists and their pointers --------------------------------------------

  ghost function Under(prefix: Tokens, d: set<Tokens>): set<Tokens> { set us | us in d :: prefix + us }

  ghost function Rendered(path: string, d: set<Tokens>): set<string> { set ts | ts in d :: path + Render(ts) }

  lemma RenderedUnder(path: string, prefix: Tokens, d: set<Tokens>)
    ensures Rendered(path, Under(prefix, d)) == Rendered(path + Render(prefix), d)
  {
    forall us | us in d ensures path + Render(prefix + us) == path + Render(prefix) + Render(us) {
      RenderAppend(prefix, us);
    }
    forall s ensures s in Rendered(path, Under(prefix, d)) <==> s in Rendered(path + Render(prefix), d) {
      if s in Rendered(path, Under(prefix, d)) {
        var us :| us in d && s == path + Render(prefix + us);
        assert s == path + Render(prefix) + Render(us);
      }
      if s in Rendered(path + Render(prefix), d) {
        var us :| us in d && s == path + Render(prefix) + Render(us);
        assert prefix + us in Under(prefix, d);
      }
    }
  }

  lemma RenderedUnion(path: string, a: set<Tokens>, b: set<Tokens>)
    ensures Rendered(path, a + b) == Rendered(path, a) + Rendered(path, b)
  {
  }

  lemma RenderOne(t: string)
    ensures Render([t]) == "/" + Escape(t)
  {
    assert [t][1..] == [];
    assert Render([]) == [];
  }

  lemma RenderTwo(p: string, t: string)
    requires '~' !in p && '/' !in p
    ensures Render([p, t]) == "/" + p + "/" + Escape(t)
  {
    RenderOne(p);
    RenderOne(t);
    EscapePlain(p);
    RenderAppend([p], [t]);
    assert [p] + [t] == [p, t];
  }

  // ----- one name, member or element more ------------------------------------------

  lemma AmongNext(p: string, m: map<string, Value>, names: set<string>, name: string, inner: set<Tokens>, ts: Tokens)
    requires name in Names(p, m) && forall us :: us in inner <==> Declared(p, m[p].members[name], us)
    ensures Among(p, m, ts, names + {name})
            <==> Among(p, m, ts, names) || ts == [p, name] || ts in Under([p, name], inner)
  {
    if |ts| >= 2 && ts[0] == p && ts[1] == name {
      assert ts == [p, name] + ts[2..];
      DeclaredNonEmpty(p, m[p].members[name]);
    }
    forall us | us in inner && ts == [p, name] + us ensures ts[0] == p && ts[1] == name && ts[2..] == us && us != [] {
      DeclaredNonEmpty(p, m[p].members[name]);
    }
  }

  lemma DeclaredNonEmpty(p: string, v: Value)
    ensures !Declared(p, v, [])
  {
  }

  lemma InsideNext(p: string, m: map<string, Value>, keys: set<string>, key: string, inner: set<Tokens>, ts: Tokens)
    requires key in m && forall us :: us in inner <==> Declared(p, m[key], us)
    ensures Inside(p, m, ts, keys + {key}) <==> Inside(p, m, ts, keys) || ts in Under([key], inner)
  {
    if |ts| >= 1 && ts[0] == key {
      assert ts == [key] + ts[1..];
    }
    forall us | us in inner && ts == [key] + us ensures ts[0] == key && ts[1..] == us {}
  }

  lemma ItemsNext(p: string, items: seq<Value>, n: nat, inner: set<Tokens>, ts: Tokens)
    requires n < |items| && forall us :: us in inner <==> Declared(p, items[n], us)
    ensures InItems(p, items, ts, n + 1) <==> InItems(p, items, ts, n) || ts in Under([Decimal(n)], inner)
  {
    if InItems(p, items, ts, n + 1) && !InItems(p, items, ts, n) {
      assert ts[0] == Decimal(n) && Declared(p, items[n], ts[1..]);
      assert ts == [Decimal(n)] + ts[1..];
    }
    forall us | us in inner && ts == [Decimal(n)] + us ensures ts[0] == Decimal(n) && ts[1..] == us {}
  }

  // ----- what a document declares, by evaluation -----------------------------------

  /** Position `i` stands for the key `p`; after that key comes a declared name, whatever it is. */
  predicate Keyword(p: string, ts: Tokens, i: nat)
    requires i < |ts|
  {
    ts[i] == p && !(i > 0 && Keyword(p, ts, i - 1))
  }

  ghost predicate ObjectAt(v: Value, ts: Tokens) { Resolve(v, ts).Some? && Resolve(v, ts).value.Object? }

  ghost predicate HoldsAt(p: string, v: Value, ts: Tokens, i: nat)
    requires i < |ts|
  {
    Keyword(p, ts, i) ==> ObjectAt(v, ts[..i + 1])
  }

  /** Every key `p` among the first `k` tokens holds an object. */
  ghost predicate HoldUpTo(p: string, v: Value, ts: Tokens, k: nat)
    requires k <= |ts|
  {
    forall i :: 0 <= i < k ==> HoldsAt(p, v, ts, i)
  }

  /** The last token is a name under the key `p`. */
  predicate NameLast(p: string, ts: Tokens) { |ts| >= 2 && Keyword(p, ts, |ts| - 2) }

  /**
   The tokens name a declaration: they evaluate by section 4 of RFC 6901, the last of them
   is a name under the key `p`, and every key `p` on the way holds an object.
   */
  ghost predicate Declaration(p: string, v: Value, ts: Tokens) {
    NameLast(p, ts) && Resolve(v, ts).Some? && HoldUpTo(p, v, ts, |ts|)
  }

  lemma {:induction false} KeywordShift(p: string, ts: Tokens, k: nat, i: nat)
    requires 0 < k && k + i < |ts| && !Keyword(p, ts, k - 1)
    ensures Keyword(p, ts, k + i) <==> Keyword(p, ts[k..], i)
  {
    if i > 0 {
      KeywordShift(p, ts, k, i - 1);
    }
  }

  lemma PrefixShift(v: Value, ts: Tokens, k: nat, i: nat, child: Value)
    requires k + i < |ts| && Resolve(v, ts[..k]) == Some(child)
    ensures Resolve(v, ts[..k + i + 1]) == Resolve(child, ts[k..][..i + 1])
  {
    assert ts[..k + i + 1] == ts[..k] + ts[k..][..i + 1];
    ResolveAppend(v, ts[..k], ts[k..][..i + 1]);
  }

  lemma HoldShift(p: string, v: Value, ts: Tokens, k: nat, child: Value)
    requires 0 < k < |ts| && !Keyword(p, ts, k - 1) && Resolve(v, ts[..k]) == Some(child) && HoldUpTo(p, v, ts, k)
    ensures HoldUpTo(p, v, ts, |ts|) <==> HoldUpTo(p, child, ts[k..], |ts| - k)
  {
    var us := ts[k..];
    forall i | 0 <= i < |us| ensures HoldsAt(p, v, ts, k + i) <==> HoldsAt(p, child, us, i) {
      KeywordShift(p, ts, k, i);
      PrefixShift(v, ts, k, i, child);
    }
    if HoldUpTo(p, child, us, |us|) {
      forall i | 0 <= i < |ts| ensures HoldsAt(p, v, ts, i) {
        if i >= k {
          assert HoldsAt(p, child, us, i - k);
        }
      }
    }
  }

  lemma NameLastShift(p: string, ts: Tokens, k: nat)
    requires 0 < k < |ts| && !Keyword(p, ts, k - 1)
    ensures NameLast(p, ts) <==> NameLast(p, ts[k..])
  {
    if |ts| - k >= 2 {
      KeywordShift(p, ts, k, |ts| - k - 2);
    }
  }

  /** Below a position that is no keyword, the rest of the tokens counts on its own. */
  lemma DeclarationBelow(p: string, v: Value, ts: Tokens, k: nat, child: Value)
    requires 0 < k < |ts| && !Keyword(p, ts, k - 1) && Resolve(v, ts[..k]) == Some(child) && HoldUpTo(p, v, ts, k)
    ensures Declaration(p, v, ts) <==> Declaration(p, child, ts[k..])
  {
    HoldShift(p, v, ts, k, child);
    ResolveSplit(v, ts, k);
    NameLastShift(p, ts, k);
  }

  lemma ResolveSplit(v: Value, ts: Tokens, k: nat)
    requires k <= |ts|
    ensures var head := Resolve(v, ts[..k]); Resolve(v, ts) == if head.Some? then Resolve(head.value, ts[k..]) else None
  {
    assert ts == ts[..k] + ts[k..];
    ResolveAppend(v, ts[..k], ts[k..]);
  }

  lemma ResolveOne(v: Value, ts: Tokens)
    requires ts != []
    ensures Resolve(v, ts[..1]) == match v
                                   case Object(m) => if ts[0] in m then Some(m[ts[0]]) else None
                                   case Array(items) =>
                                     var i := ArrayIndex(ts[0]);
                                     if i.Some? && i.value < |items| then Some(items[i.value]) else None
                                   case _ => None
  {
    assert ts[..1] == [ts[0]] && [ts[0]][1..] == [];
  }

  lemma Unresolved(p: string, v: Value, ts: Tokens, k: nat)
    requires k <= |ts| && Resolve(v, ts[..k]).None?
    ensures !Declaration(p, v, ts)
  {
    ResolveSplit(v, ts, k);
  }

  /** Under the key `p`: the name, and what it declares inside. */
  lemma UnderKey(p: string, m: map<string, Value>, ts: Tokens)
    requires |ts| >= 2 && ts[0] == p
    requires ts[1] in Names(p, m) && |ts| > 2 ==>
               (Declared(p, m[p].members[ts[1]], ts[2..]) <==> Declaration(p, m[p].members[ts[1]], ts[2..]))
    ensures Among(p, m, ts, Names(p, m)) <==> Declaration(p, Object(m), ts)
  {
    var v := Object(m);
    ResolveOne(v, ts);
    assert Keyword(p, ts, 0) && !Keyword(p, ts, 1);
    if p !in m || !m[p].Object? {
      assert !HoldsAt(p, v, ts, 0);
    } else {
      TwoTokens(m, p, ts);
      if ts[1] !in m[p].members {
        Unresolved(p, v, ts, 2);
      } else if |ts| > 2 {
        DeclarationBelow(p, v, ts, 2, m[p].members[ts[1]]);
      } else {
        assert ts[..2] == ts;
      }
    }
  }

  lemma TwoTokens(m: map<string, Value>, p: string, ts: Tokens)
    requires |ts| >= 2 && ts[0] == p && p in m && m[p].Object?
    ensures Resolve(Object(m), ts[..2]) == if ts[1] in m[p].members then Some(m[p].members[ts[1]]) else None
  {
    ResolveSplit(Object(m), ts[..2], 1);
    assert ts[..2][..1] == ts[..1] && ts[..2][1..] == [ts[1]] && [ts[1]][1..] == [];
    ResolveOne(Object(m), ts);
  }

  lemma UnderMember(p: string, m: map<string, Value>, ts: Tokens)
    requires ts != [] && ts[0] != p
    requires ts[0] in m ==> (Declared(p, m[ts[0]], ts[1..]) <==> Declaration(p, m[ts[0]], ts[1..]))
    ensures Inside(p, m, ts, m.Keys - {p}) <==> Declaration(p, Object(m), ts)
  {
    ResolveOne(Object(m), ts);
    if ts[0] !in m {
      Unresolved(p, Object(m), ts, 1);
    } else if |ts| > 1 {
      DeclarationBelow(p, Object(m), ts, 1, m[ts[0]]);
    }
  }

  lemma UnderElement(p: string, items: seq<Value>, ts: Tokens)
    requires ts != [] && ArrayIndex(p).None?
    requires var i := ArrayIndex(ts[0]);
             i.Some? && i.value < |items| ==>
               (Declared(p, items[i.value], ts[1..]) <==> Declaration(p, items[i.value], ts[1..]))
    ensures InItems(p, items, ts, |items|) <==> Declaration(p, Array(items), ts)
  {
    ResolveOne(Array(items), ts);
    forall i | 0 <= i < |items| && ts[0] == Decimal(i) ensures ArrayIndex(ts[0]) == Some(i) {
      DecimalRoundTrip(i);
    }
    var i := ArrayIndex(ts[0]);
    if i.None? || i.value >= |items| {
      Unresolved(p, Array(items), ts, 1);
    } else {
      IndexIsDecimal(ts[0]);
      if |ts| > 1 {
        DeclarationBelow(p, Array(items), ts, 1, items[i.value]);
      }
    }
  }

  /** What the walk finds is exactly what evaluation calls a declaration: nothing is missed, nothing is invented. */
  lemma {:induction false} WalkFindsDeclarations(p: string, v: Value, ts: Tokens)
    requires ArrayIndex(p).None?
    ensures Declared(p, v, ts) <==> Declaration(p, v, ts)
    decreases |ts|
  {
    if ts == [] {
      DeclaredNonEmpty(p, v);
    } else {
      match v
      case Object(m) =>
        if ts[0] != p {
          if ts[0] in m { WalkFindsDeclarations(p, m[ts[0]], ts[1..]); }
          UnderMember(p, m, ts);
        } else if |ts| >= 2 {
          if ts[1] in Names(p, m) { WalkFindsDeclarations(p, m[p].members[ts[1]], ts[2..]); }
          UnderKey(p, m, ts);
        }
      case Array(items) =>
        var i := ArrayIndex(ts[0]);
        if i.Some? && i.value < |items| { WalkFindsDeclarations(p, items[i.value], ts[1..]); }
        UnderElement(p, items, ts);
      case _ =>
        ResolveOne(v, ts);
        Unresolved(p, v, ts, 1);
    }
  }

  /** No two declarations share a pointer. */
  lemma PointersDistinct(a: Tokens, b: Tokens)
    requires Render(a) == Render(b)
    ensures a == b
  {
    ParseRender(a);
    ParseRender(b);
  }

  /** The text is the pointer of a declaration, below `path`. */
  ghost predicate PointerBelow(p: string, schema: Value, path: string, s: string) {
    exists ts :: Declaration(p, schema, ts) && s == path + Render(ts)
  }

  ghost predicate Exact(p: string, schema: Value, path: string, pointers: set<string>) {
    forall s :: s in pointers <==> PointerBelow(p, schema, path, s)
  }

  lemma RenderedBy(p: string, schema: Value, path: string, d: set<Tokens>, s: string)
    requires ArrayIndex(p).None? && forall ts :: ts in d <==> Declared(p, schema, ts)
    ensures s in Rendered(path, d) <==> PointerBelow(p, schema, path, s)
  {
    if s in Rendered(path, d) {
      var ts :| ts in d && s == path + Render(ts);
      WalkFindsDeclarations(p, schema, ts);
    }
    if ts :| Declaration(p, schema, ts) && s == path + Render(ts) {
      WalkFindsDeclarations(p, schema, ts);
      assert ts in d;
    }
  }

  lemma RenderedExact(p: string, schema: Value, path: string, d: set<Tokens>)
    requires ArrayIndex(p).None? && forall ts :: ts in d <==> Declared(p, schema, ts)
    ensures Exact(p, schema, path, Rendered(path, d))
  {
    forall s ensures s in Rendered(path, d) <==> PointerBelow(p, schema, path, s) {
      RenderedBy(p, schema, path, d, s);
    }
  }

  /** A key that needs no escaping and is no array index. */
  predicate PlainKey(p: string) { '~' !in p && '/' !in p && ArrayIndex(p).None? }

  // ----- the collector -------------------------------------------------------------

  /** Exactly the pointers of the declarations in the schema, below `path`. */
  method FieldPointers(p: string, schema: Value, path: string) returns (pointers: set<string>, ghost d: set<Tokens>)
    requires PlainKey(p)
    ensures Exact(p, schema, path, pointers)
    ensures pointers == Rendered(path, d) && forall ts :: ts in d <==> Declared(p, schema, ts)
    decreases schema, 1
  {
    pointers, d := {}, {};
    if schema.Object? {
      ghost var d1, d2;
      var own, other;
      own, d1 := PropertyPointers(p, schema, path);
      other, d2 := MemberPointers(p, schema, path);
      RenderedUnion(path, d1, d2);
      pointers, d := own + other, d1 + d2;
    } else if schema.Array? {
      for i := 0 to |schema.items|
        invariant pointers == Rendered(path, d) && forall ts :: ts in d <==> InItems(p, schema.items, ts, i)
      {
        ghost var inner;
        var found;
        found, inner := FieldPointers(p, schema.items[i], path + "/" + Decimal(i));
        ghost var d' := d + Under([Decimal(i)], inner);
        ElementPath(path, i);
        RenderedUnder(path, [Decimal(i)], inner);
        RenderedUnion(path, d, Under([Decimal(i)], inner));
        forall ts ensures ts in d' <==> InItems(p, schema.items, ts, i + 1) {
          ItemsNext(p, schema.items, i, inner, ts);
        }
        pointers, d := pointers + found, d';
      }
    }
    RenderedExact(p, schema, path, d);
  }

  lemma ElementPath(path: string, i: nat)
    ensures path + Render([Decimal(i)]) == path + "/" + Decimal(i)
  {
    RenderOne(Decimal(i));
    DecimalPlain(i);
  }

  /** The declared names, each with what is declared inside it. */
  method PropertyPointers(p: string, schema: Value, path: string) returns (pointers: set<string>, ghost d: set<Tokens>)
    requires schema.Object? && PlainKey(p)
    ensures pointers == Rendered(path, d)
    ensures forall ts :: ts in d <==> Among(p, schema.members, ts, Names(p, schema.members))
    decreases schema, 0
  {
    var m := schema.members;
    var names, todo: set<string> := {}, Names(p, m);
    pointers, d := {}, {};
    while todo != {}
      invariant names + todo == Names(p, m)
      invariant pointers == Rendered(path, d) && forall ts :: ts in d <==> Among(p, m, ts, names)
      decreases todo
    {
      var name :| name in todo;
      var pointer := path + "/" + p + "/" + Escape(name);
      ghost var inner;
      var found;
      found, inner := FieldPointers(p, m[p].members[name], pointer);
      ghost var d' := d + {[p, name]} + Under([p, name], inner);
      NameAdds(p, name, path, d, inner);
      forall ts ensures ts in d' <==> Among(p, m, ts, names + {name}) {
        AmongNext(p, m, names, name, inner, ts);
      }
      pointers, d := pointers + {pointer} + found, d';
      names, todo := names + {name}, todo - {name};
    }
    assert names == Names(p, m);
  }

  lemma NameAdds(p: string, name: string, path: string, d: set<Tokens>, inner: set<Tokens>)
    requires '~' !in p && '/' !in p
    ensures var pointer := path + "/" + p + "/" + Escape(name);
            Rendered(path, d + {[p, name]} + Under([p, name], inner))
                == Rendered(path, d) + {pointer} + Rendered(pointer, inner)
  {
    var pointer := path + "/" + p + "/" + Escape(name);
    RenderTwo(p, name);
    assert path + Render([p, name]) == pointer;
    RenderedUnder(path, [p, name], inner);
    RenderedUnion(path, d + {[p, name]}, Under([p, name], inner));
    RenderedUnion(path, d, {[p, name]});
    assert Rendered(path, {[p, name]}) == {path + Render([p, name])};
  }

  /** Every other member, with what is declared inside it. */
  method MemberPointers(p: string, schema: Value, path: string) returns (pointers: set<string>, ghost d: set<Tokens>)
    requires schema.Object? && PlainKey(p)
    ensures pointers == Rendered(path, d)
    ensures forall ts :: ts in d <==> Inside(p, schema.members, ts, schema.members.Keys - {p})
    decreases schema, 0
  {
    var m := schema.members;
    var keys, todo: set<string> := {}, m.Keys - {p};
    pointers, d := {}, {};
    while todo != {}
      invariant keys + todo == m.Keys - {p}
      invariant pointers == Rendered(path, d) && forall ts :: ts in d <==> Inside(p, m, ts, keys)
      decreases todo
    {
      var key :| key in todo;
      ghost var inner;
      var found;
      found, inner := FieldPointers(p, m[key], path + "/" + Escape(key));
      ghost var d' := d + Under([key], inner);
      RenderOne(key);
      assert path + Render([key]) == path + "/" + Escape(key);
      RenderedUnder(path, [key], inner);
      RenderedUnion(path, d, Under([key], inner));
      forall ts ensures ts in d' <==> Inside(p, m, ts, keys + {key}) {
        InsideNext(p, m, keys, key, inner, ts);
      }
      pointers, d := pointers + found, d';
      keys, todo := keys + {key}, todo - {key};
    }
    assert keys == m.Keys - {p};
  }

  // ----- the pointers of a whole document ------------------------------------------

  /** The text is the pointer of a declaration: it parses to one, and is how that one is written. */
  ghost predicate PointsAtDeclaration(p: string, schema: Value, s: string) {
    Parse(s).Some? && Declaration(p, schema, Parse(s).value) && Render(Parse(s).value) == s
  }

  lemma DeclarationPointer(p: string, schema: Value, s: string)
    ensures PointsAtDeclaration(p, schema, s) <==> PointerBelow(p, schema, "", s)
  {
    if PointsAtDeclaration(p, schema, s) {
      assert s == "" + Render(Parse(s).value);
    }
    if ts :| Declaration(p, schema, ts) && s == "" + Render(ts) {
      assert s == Render(ts);
      ParseRender(ts);
    }
  }

  lemma ExactPoints(p: string, schema: Value, pointers: set<string>)
    requires Exact(p, schema, "", pointers)
    ensures forall s :: s in pointers <==> PointsAtDeclaration(p, schema, s)
  {
    forall s ensures s in pointers <==> PointsAtDeclaration(p, schema, s) {
      DeclarationPointer(p, schema, s);
    }
  }

  /** Exactly the texts that point at a declaration, by parsing and evaluation alone. */
  method SchemaFieldPointers(schema: Value) returns (pointers: set<string>)
    ensures forall s :: s in pointers <==> PointsAtDeclaration(PROPERTIES, schema, s)
  {
    assert !IsDigit(PROPERTIES[0]);
    ghost var d;
    pointers, d := FieldPointers(PROPERTIES, schema, "");
    ExactPoints(PROPERTIES, schema, pointers);
  }
}
