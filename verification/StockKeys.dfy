/** The text keys of the stock counts (orders.service.ts): "p:id", "v:id:name:value" and "g:id". */
module StockKeys {
  import opened Options

  datatype Key = ProductKey(id: nat) | VariantKey(productId: nat, name: string, value: string) | GroupKey(id: nat)

  // ---------- Numbers as text ----------

  function Digit(n: nat): char
    requires n < 10
  {
    '0' + n as char
  }

  function Digits(n: nat): string {
    if n < 10 then [Digit(n)] else Digits(n / 10) + [Digit(n % 10)]
  }

  /** `Number` on a text of digits; anything else is 0 here. */
  function Number(s: string): nat {
    if s == "" || !('0' <= s[|s| - 1] <= '9') then 0
    else Number(s[..|s| - 1]) * 10 + (s[|s| - 1] - '0') as nat
  }

  lemma {:induction false} NumberOfDigits(n: nat)
    ensures Digits(n) != "" && ':' !in Digits(n) && Number(Digits(n)) == n
    decreases n
  {
    if n < 10 {
      assert Digits(n)[..0] == "";
    } else {
      NumberOfDigits(n / 10);
      assert Digits(n)[..|Digits(n)| - 1] == Digits(n / 10);
    }
  }

  // ---------- Printing and reading keys ----------

  function NameAndValue(name: string, value: string): string { name + ":" + value }

  function Render(k: Key): string {
    match k
    case ProductKey(id) => "p:" + Digits(id)
    case VariantKey(id, name, value) => "v" + ":" + (Digits(id) + ":" + NameAndValue(name, value))
    case GroupKey(id) => "g:" + Digits(id)
  }

  /** Position of the first colon, or the length. */
  function Colon(s: string): (i: nat)
    ensures i <= |s| && ':' !in s[..i] && (i < |s| ==> s[i] == ':')
  {
    if s == "" || s[0] == ':' then 0 else
      var i := 1 + Colon(s[1..]);
      assert s[..i] == [s[0]] + s[1..][..i - 1];
      i
  }

  /** `split(':')` */
  function Split(s: string): (parts: seq<string>)
    ensures parts != []
    decreases |s|
  {
    if Colon(s) == |s| then [s] else [s[..Colon(s)]] + Split(s[Colon(s) + 1..])
  }

  function JoinColon(parts: seq<string>): string {
    if parts == [] then "" else if |parts| == 1 then parts[0] else parts[0] + ":" + JoinColon(parts[1..])
  }

  datatype Variant = Variant(productId: nat, attributeName: string, attributeValue: string)

  function ParseVariantKey(key: string): Option<Variant> {
    if !("v:" <= key) then None
    else
      var parts := Split(key);
      if |parts| < 4 then None else Some(Variant(Number(parts[1]), parts[2], JoinColon(parts[3..])))
  }

  /** How the deduct and restore loops tell the three kinds apart. */
  function Dispatch(key: string): Key {
    if "g:" <= key then GroupKey(Number(key[2..]))
    else
      match ParseVariantKey(key)
      case Some(v) => VariantKey(v.productId, v.attributeName, v.attributeValue)
      case None => ProductKey(if "p:" <= key then Number(key[2..]) else Number(key))
  }

  // ---------- Reading undoes printing ----------

  lemma SplitFirst(a: string, b: string)
    requires ':' !in a
    ensures Split(a + ":" + b) == [a] + Split(b)
  {
    var s := a + ":" + b;
    assert s[|a|] == ':';
    assert forall i :: 0 <= i < |a| ==> s[i] == a[i];
    assert forall j :: 0 <= j < Colon(s) ==> s[..Colon(s)][j] == s[j];
    assert Colon(s) == |a|;
    assert s[..|a|] == a && s[|a| + 1..] == b;
  }

  lemma {:induction false} JoinOfSplit(s: string)
    ensures JoinColon(Split(s)) == s
    decreases |s|
  {
    if Colon(s) < |s| {
      JoinOfSplit(s[Colon(s) + 1..]);
      assert s == s[..Colon(s)] + ":" + s[Colon(s) + 1..];
    }
  }

  lemma SplitHeadHasNoColon(s: string)
    ensures ':' !in Split(s)[0]
  {
  }

  lemma SplitTwo(a: string, b: string, rest: string)
    requires ':' !in a && ':' !in b
    ensures Split(a + ":" + (b + ":" + rest)) == [a, b] + Split(rest)
  {
    SplitFirst(b, rest);
    SplitFirst(a, b + ":" + rest);
    assert [a] + ([b] + Split(rest)) == [a, b] + Split(rest);
  }

  lemma SplitHasTwo(name: string, value: string)
    ensures |Split(NameAndValue(name, value))| >= 2
    ensures Split(NameAndValue(name, value))[0] == name <==> ':' !in name
    ensures ':' !in name ==> JoinColon(Split(NameAndValue(name, value))[1..]) == value
  {
    var u := NameAndValue(name, value);
    assert u[|name|] == ':';
    assert forall j :: 0 <= j < Colon(u) ==> u[..Colon(u)][j] == u[j];
    SplitHeadHasNoColon(u);
    if ':' !in name {
      SplitFirst(name, value);
      JoinOfSplit(value);
    }
  }

  lemma ParseParts(key: string, digits: string, rest: string)
    requires "v:" <= key && Split(key) == ["v", digits] + Split(rest) && |Split(rest)| >= 2
    ensures ParseVariantKey(key) == Some(Variant(Number(digits), Split(rest)[0], JoinColon(Split(rest)[1..])))
  {
    var parts := Split(key);
    assert parts[1] == digits && parts[2] == Split(rest)[0] && parts[3..] == Split(rest)[1..];
  }

  /** What parsing a variant key yields: the name ends at its first colon. */
  lemma ParsedParts(id: nat, name: string, value: string)
    ensures var rest := Split(NameAndValue(name, value));
            |rest| >= 2 && ParseVariantKey(Render(VariantKey(id, name, value))) ==
                Some(Variant(id, rest[0], JoinColon(rest[1..])))
  {
    var key, digits, rest := Render(VariantKey(id, name, value)), Digits(id), NameAndValue(name, value);
    NumberOfDigits(id);
    SplitHasTwo(name, value);
    SplitTwo("v", digits, rest);
    assert "v:" <= key;
    ParseParts(key, digits, rest);
  }

  /** Parsing gives the variant back exactly when its attribute name has no colon; the value may have any. */
  lemma ParseUndoesRender(id: nat, name: string, value: string)
    ensures ParseVariantKey(Render(VariantKey(id, name, value))) == Some(Variant(id, name, value)) <==> ':' !in name
  {
    ParsedParts(id, name, value);
    SplitHasTwo(name, value);
  }

  predicate NameHasNoColon(k: Key) { k.VariantKey? ==> ':' !in k.name }

  lemma PlainKeyIsNotVariant(prefix: char, id: nat)
    requires prefix != 'v' && prefix != ':'
    ensures ParseVariantKey([prefix] + ":" + Digits(id)) == None
  {
  }

  /** A printed key reaches the row it was printed for exactly when its attribute name has no colon. */
  lemma DispatchUndoesRender(k: Key)
    ensures Dispatch(Render(k)) == k <==> NameHasNoColon(k)
  {
    match k
    case ProductKey(id) =>
      NumberOfDigits(id);
      PlainKeyIsNotVariant('p', id);
      assert Render(k) == ['p'] + ":" + Digits(id);
      assert Render(k)[2..] == Digits(id);
    case GroupKey(id) =>
      NumberOfDigits(id);
      assert Render(k)[2..] == Digits(id);
    case VariantKey(id, name, value) =>
      ParseUndoesRender(id, name, value);
      ParsedParts(id, name, value);
      assert Render(k)[0] == 'v';
  }

  /** So two such keys never share a counter ... */
  lemma RenderInjective(j: Key, k: Key)
    requires NameHasNoColon(j) && NameHasNoColon(k) && Render(j) == Render(k)
    ensures j == k
  {
    DispatchUndoesRender(j);
    DispatchUndoesRender(k);
  }

  /** ... while a colon in a name can merge two variants into one. */
  lemma ColonMergesVariants()
    ensures Render(VariantKey(7, "lado:a", "b")) == Render(VariantKey(7, "lado", "a:b"))
  {
    assert "lado:a" + ":" + "b" == "lado" + ":" + "a:b";
  }
}
