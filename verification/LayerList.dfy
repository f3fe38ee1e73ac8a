/** Decimal layer lists: the text form, its reading and its printing. */
module LayerList {

  const LAYERS: nat := 30

  predicate IsDigit(c: char) {
    '0' <= c <= '9'
  }

  predicate AllDigits(s: string) {
    forall i :: 0 <= i < |s| ==> IsDigit(s[i])
  }

  /** The number a digit string denotes; leading zeros do not matter. */
  function Number(s: string): nat
    requires AllDigits(s)
  {
    if s == "" then 0 else 10 * Number(s[..|s| - 1]) + (s[|s| - 1] - '0') as nat
  }

  /** The comma-separated tokens of a text; there is always at least one. */
  function Split(s: string): (tokens: seq<string>)
    ensures |tokens| >= 1
  {
    if s == "" then [""]
    else if s[0] == ',' then [""] + Split(s[1..])
    else
      var rest := Split(s[1..]);
      [[s[0]] + rest[0]] + rest[1..]
  }

  /** A token that names a layer. */
  predicate IsLayer(token: string) {
    token != "" && AllDigits(token) && Number(token) < LAYERS
  }

  predicate AllLayers(tokens: seq<string>) {
    forall i :: 0 <= i < |tokens| ==> IsLayer(tokens[i])
  }

  function Numbers(tokens: seq<string>): (ids: seq<int>)
    requires AllLayers(tokens)
    ensures |ids| == |tokens|
  {
    seq(|tokens|, i requires 0 <= i < |tokens| => Number(tokens[i]))
  }

  predicate Ascending(ids: seq<int>) {
    forall i, j :: 0 <= i < j < |ids| ==> ids[i] < ids[j]
  }

  /** The accepted texts: layers of the model in strictly ascending order, separated by single commas. */
  predicate IsLayerList(s: string) {
    AllLayers(Split(s)) && Ascending(Numbers(Split(s)))
  }

  function LayersOf(s: string): seq<int>
    requires IsLayerList(s)
  {
    Numbers(Split(s))
  }

  // ---- Reading one token ----

  lemma {:induction false} SplitAt(s: string, k: nat)
    requires k <= |s| && (k == |s| || s[k] == ',')
    requires forall i :: 0 <= i < k ==> s[i] != ','
    ensures Split(s) == [s[..k]] + if k == |s| then [] else Split(s[k + 1..])
  {
    if k > 0 {
      SplitAt(s[1..], k - 1);
      assert s[1..][..k - 1] == s[1..k] && s[..k] == [s[0]] + s[1..k];
      if k < |s| {
        assert s[1..][k - 1 + 1..] == s[k + 1..];
      }
    }
  }

  /** The first token is the text up to the first comma. */
  lemma {:induction false} FirstToken(s: string) returns (k: nat)
    ensures k <= |s| && (k == |s| || s[k] == ',')
    ensures forall i :: 0 <= i < k ==> s[i] != ','
    ensures Split(s)[0] == s[..k]
  {
    k := 0;
    while k < |s| && s[k] != ','
      invariant 0 <= k <= |s| && forall i :: 0 <= i < k ==> s[i] != ','
    {
      k := k + 1;
    }
    SplitAt(s, k);
  }

  /** Digits followed by something else than a comma or the end spoil the first token. */
  lemma {:induction false} BadToken(s: string, k: nat)
    requires k < |s| && !IsDigit(s[k]) && s[k] != ','
    requires forall i :: 0 <= i < k ==> IsDigit(s[i])
    ensures !IsLayer(Split(s)[0])
  {
    var n := FirstToken(s);
    assert n > k;
    assert s[..n][k] == s[k];
  }

  lemma {:induction false} EmptyToken(s: string)
    requires s == "" || s[0] == ','
    ensures !IsLayer(Split(s)[0])
  {
  }

  /** More digits never make a number smaller. */
  lemma {:induction false} NumberGrows(s: string, k: nat)
    requires AllDigits(s) && k <= |s|
    ensures AllDigits(s[..k]) && Number(s[..k]) <= Number(s)
    decreases |s|
  {
    if k < |s| {
      NumberGrows(s[..|s| - 1], k);
      assert s[..|s| - 1][..k] == s[..k];
    } else {
      assert s[..k] == s;
    }
  }

  /** A prefix of thirty or more spoils the first token, whatever follows. */
  lemma {:induction false} LargeToken(s: string, k: nat)
    requires k <= |s| && AllDigits(s[..k]) && Number(s[..k]) >= LAYERS
    ensures !IsLayer(Split(s)[0])
  {
    var n := FirstToken(s);
    forall i | 0 <= i < k
      ensures s[i] != ','
    {
      assert IsDigit(s[..k][i]);
    }
    assert n >= k;
    var token := s[..n];
    assert token[..k] == s[..k];
    if AllDigits(token) {
      NumberGrows(token, k);
    }
  }

  lemma {:induction false} NumberSnoc(s: string, c: char)
    requires AllDigits(s) && IsDigit(c)
    ensures AllDigits(s + [c]) && Number(s + [c]) == 10 * Number(s) + (c - '0') as nat
  {
    assert (s + [c])[..|s|] == s;
  }

  // ---- Printing ----

  function Digit(n: nat): char
    requires n < 10
  {
    '0' + n as char
  }

  /** Decimal text of an integer. */
  function Str(n: int): string
    decreases if n < 0 then -n + 1 else n
  {
    if n < 0 then "-" + Str(-n)
    else if n < 10 then [Digit(n)]
    else Str(n / 10) + [Digit(n % 10)]
  }

  function Join(tokens: seq<string>): string {
    if tokens == [] then ""
    else if |tokens| == 1 then tokens[0]
    else tokens[0] + "," + Join(tokens[1..])
  }

  function Printed(layers: seq<int>): (tokens: seq<string>)
    ensures |tokens| == |layers|
  {
    seq(|layers|, i requires 0 <= i < |layers| => Str(layers[i]))
  }

  lemma {:induction false} StrReadsBack(n: nat)
    ensures Str(n) != "" && AllDigits(Str(n)) && Number(Str(n)) == n
  {
    if n >= 10 {
      StrReadsBack(n / 10);
      NumberSnoc(Str(n / 10), Digit(n % 10));
    } else {
      assert Number("") == 0;
      NumberSnoc("", Digit(n));
      assert "" + [Digit(n)] == [Digit(n)];
    }
  }

  /** A negative number is a minus sign and the digits of its absolute value. */
  lemma {:induction false} StrOfNegative(n: int)
    requires n < 0
    ensures Str(n) != "" && Str(n)[0] == '-' && AllDigits(Str(n)[1..]) && Number(Str(n)[1..]) == -n
  {
    StrReadsBack(-n);
    assert Str(n)[1..] == Str(-n);
  }

  lemma {:induction false} StrHasNoComma(n: int)
    ensures forall i :: 0 <= i < |Str(n)| ==> Str(n)[i] != ','
    decreases if n < 0 then -n + 1 else n
  {
    if n < 0 {
      StrHasNoComma(-n);
    } else {
      StrReadsBack(n);
    }
  }

  lemma {:induction false} StrIsLayer(n: int)
    ensures IsLayer(Str(n)) <==> 0 <= n < LAYERS
    ensures 0 <= n < LAYERS ==> Number(Str(n)) == n
  {
    if n >= 0 {
      StrReadsBack(n);
    } else {
      assert Str(n)[0] == '-';
    }
  }

  lemma {:induction false} SplitJoin(tokens: seq<string>)
    requires tokens != []
    requires forall t, i :: 0 <= t < |tokens| && 0 <= i < |tokens[t]| ==> tokens[t][i] != ','
    ensures Split(Join(tokens)) == tokens
  {
    var s := Join(tokens);
    var k := |tokens[0]|;
    if |tokens| > 1 {
      var rest := tokens[1..];
      forall t, i | 0 <= t < |rest| && 0 <= i < |rest[t]|
        ensures rest[t][i] != ','
      {
        assert tokens[t + 1][i] != ',';
      }
      SplitJoin(rest);
      assert s[..k] == tokens[0] && s[k] == ',' && s[k + 1..] == Join(rest);
    } else {
      assert s[..k] == s;
    }
    SplitAt(s, k);
  }

  /** The reader accepts a printed list exactly when it is a list of layers, and then reads it back. */
  lemma {:induction false} PrintedListReadsBack(layers: seq<int>)
    ensures IsLayerList(Join(Printed(layers))) <==>
              layers != [] && Ascending(layers) && forall i :: 0 <= i < |layers| ==> 0 <= layers[i] < LAYERS
    ensures IsLayerList(Join(Printed(layers))) ==> LayersOf(Join(Printed(layers))) == layers
  {
    hide Split, Join, Number, Str;
    var tokens := Printed(layers);
    if layers == [] {
      PrintedNothing();
      EmptyToken("");
    } else {
      forall t, i | 0 <= t < |tokens| && 0 <= i < |tokens[t]|
        ensures tokens[t][i] != ','
      {
        StrHasNoComma(layers[t]);
      }
      SplitJoin(tokens);
      forall i | 0 <= i < |layers|
        ensures IsLayer(tokens[i]) <==> 0 <= layers[i] < LAYERS
        ensures IsLayer(tokens[i]) ==> Number(tokens[i]) == layers[i]
      {
        StrIsLayer(layers[i]);
      }
      if AllLayers(tokens) {
        assert Numbers(tokens) == layers;
      }
    }
  }

  lemma {:induction false} PrintedNothing()
    ensures Join(Printed([])) == ""
  {
    assert Printed([]) == [];
  }

  /** An ascending list of layers never has more than thirty members. */
  lemma {:induction false} AscendingIsShort(ids: seq<int>)
    requires Ascending(ids) && forall i :: 0 <= i < |ids| ==> 0 <= ids[i] < LAYERS
    ensures |ids| <= LAYERS
    ensures ids != [] ==> |ids| <= ids[|ids| - 1] + 1
  {
    if ids != [] {
      var init := ids[..|ids| - 1];
      AscendingIsShort(init);
      if init != [] {
        assert init[|init| - 1] == ids[|ids| - 2] < ids[|ids| - 1];
      }
      assert 0 <= ids[|ids| - 1] < LAYERS;
    }
  }
}
