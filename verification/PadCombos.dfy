/** An Arcade Controller Pro's combos: a button that presses several, stored from the first entry on. */
module PadCombos {
  import opened Bytes
  import opened PadLayouts
  import opened PadSections

  const COMBOS: nat := 5
  const PRESSED: nat := 6
  const ENTRY: nat := 32
  const COMBO_BYTES: nat := 164
  const STAR_INPUT := 12
  const HOME_INPUT := 13

  /** How a combo names the button it is on, in button-map order. */
  const CODES: seq<Target> := [
    A, B, X, Y, L1, R1, L2, R2, L3, R3, SELECT, START, STAR, HOME, UP, DOWN, LEFT, RIGHT,
    PADDLE1, PADDLE2, P3, P4, P5, SCREENSHOT
  ]

  const MEMBERS: seq<Target> := [A, B, X, Y, L1, L2, L3, R1, R2, R3, SELECT, START]

  datatype Combo = Combo(input: int, buttons: seq<Target>)
  {
    predicate Shaped() { |buttons| == PRESSED }
    predicate Empty()
      requires Shaped()
    {
      buttons[0] == NONE
    }
  }

  const NO_COMBO := Combo(0, [NONE, NONE, NONE, NONE, NONE, NONE])

  predicate AllShaped(combos: seq<Combo>) { forall n :: 0 <= n < |combos| ==> combos[n].Shaped() }

  predicate Carries(input: int) { 0 <= input < |CODES| && input != STAR_INPUT && input != HOME_INPUT }

  /** The input a combo's code names from i on; Star and Home cannot carry one. */
  function InputFrom(code: Target, i: nat): (input: Option<nat>)
    requires i <= |CODES|
    decreases |CODES| - i
  {
    if i == |CODES| then None
    else if CODES[i] == code && Carries(i) then Some(i)
    else InputFrom(code, i + 1)
  }

  lemma {:induction false} InputOfCode(input: nat, i: nat)
    requires Carries(input) && i <= input
    ensures InputFrom(CODES[input], i) == Some(input)
    decreases input - i
  {
    if i < input {
      assert CODES[i] != CODES[input];
      InputOfCode(input, i + 1);
    }
  }

  // ---- One entry

  function EntryWords(c: Combo): (ws: seq<U32>)
    requires c.Shaped() && Carries(c.input)
    ensures |ws| == 8
  {
    [IN_USE, CODES[c.input]] + c.buttons
  }

  function EntryBytes(c: Combo): (b: seq<Byte>)
    requires c.Shaped() && Carries(c.input)
    ensures |b| == ENTRY
  {
    Words(EntryWords(c))
  }

  /** The combo an entry holds, if it is on a button that can carry one and presses something. */
  function EntryCombo(entry: seq<Byte>): (c: Option<Combo>)
    requires |entry| == ENTRY
    ensures c.Some? ==> c.value.Shaped() && !c.value.Empty()
  {
    var ws := WordsIn(entry, 8);
    var input := InputFrom(ws[1], 0);
    if ws[0] != IN_USE || input.None? || ws[2] == NONE then None else Some(Combo(input.value, ws[2..]))
  }

  lemma EntryRoundTrip(c: Combo)
    requires c.Shaped() && Carries(c.input) && !c.Empty()
    ensures EntryCombo(EntryBytes(c)) == Some(c)
  {
    hide Words, WordsIn;
    WordsRoundTrip(EntryWords(c), []);
    assert EntryBytes(c) + [] == EntryBytes(c);
    InputOfCode(c.input, 0);
  }

  lemma ZeroEntry()
    ensures EntryCombo(Fill(ENTRY, 0)).None?
  {
    assert WordsIn(Fill(ENTRY, 0), 8)[0] == 0;
  }

  // ---- The section

  /** The combos in use among the first n. */
  function Kept(combos: seq<Combo>, n: nat): (kept: seq<Combo>)
    requires AllShaped(combos) && n <= |combos|
    ensures |kept| <= n && AllShaped(kept) && forall k :: 0 <= k < |kept| ==> !kept[k].Empty() && kept[k] in combos
  {
    if n == 0 then [] else Kept(combos, n - 1) + if combos[n - 1].Empty() then [] else [combos[n - 1]]
  }

  predicate AllCarried(combos: seq<Combo>)
    requires AllShaped(combos)
  {
    forall n :: 0 <= n < |combos| && !combos[n].Empty() ==> Carries(combos[n].input)
  }

  /** The combos in use from the front on, and none in the rest. */
  function Compact(combos: seq<Combo>): (r: seq<Combo>)
    requires AllShaped(combos) && |combos| <= COMBOS
    ensures |r| == COMBOS && AllShaped(r)
  {
    var kept := Kept(combos, |combos|);
    kept + seq(COMBOS - |kept|, _ => NO_COMBO)
  }

  function Entries(kept: seq<Combo>, n: nat): (b: seq<Byte>)
    requires AllShaped(kept) && n <= |kept| && forall k :: 0 <= k < |kept| ==> Carries(kept[k].input)
    ensures |b| == n * ENTRY
  {
    if n == 0 then [] else Entries(kept, n - 1) + EntryBytes(kept[n - 1])
  }

  /** A slot's combo section: the combos in use from the first entry on, the rest of it zero. */
  function ComboBytes(combos: seq<Combo>): (b: seq<Byte>)
    requires AllShaped(combos) && |combos| == COMBOS && AllCarried(combos)
    ensures |b| == COMBO_BYTES
  {
    var kept := Kept(combos, COMBOS);
    SECTION_FLAG + (Entries(kept, |kept|) + Fill((COMBOS - |kept|) * ENTRY, 0))
  }

  function EntryAt(entries: seq<Byte>, e: nat): (entry: seq<Byte>)
    requires (e + 1) * ENTRY <= |entries|
    ensures |entry| == ENTRY
  {
    entries[e * ENTRY..(e + 1) * ENTRY]
  }

  /** The combos the first n entries hold. */
  function Found(entries: seq<Byte>, n: nat): (found: seq<Combo>)
    requires n * ENTRY <= |entries|
    ensures |found| <= n && AllShaped(found) && forall k :: 0 <= k < |found| ==> !found[k].Empty()
  {
    if n == 0 then []
    else
      var c := EntryCombo(EntryAt(entries, n - 1));
      Found(entries, n - 1) + if c.Some? then [c.value] else []
  }

  /** A model without combos has no section for them. */
  function CombosOf(section: seq<Byte>): (combos: seq<Combo>)
    requires |section| == COMBO_BYTES || section == []
    ensures |combos| == COMBOS && AllShaped(combos)
  {
    if section == [] || !Marked(section) then seq(COMBOS, _ => NO_COMBO)
    else
      var found := Found(section[4..], COMBOS);
      found + seq(COMBOS - |found|, _ => NO_COMBO)
  }

  lemma {:induction false} EntriesAt(kept: seq<Combo>, n: nat, k: nat)
    requires AllShaped(kept) && n <= |kept| && (forall i :: 0 <= i < |kept| ==> Carries(kept[i].input)) && k < n
    ensures EntryAt(Entries(kept, n), k) == EntryBytes(kept[k])
  {
    hide EntryBytes;
    if k < n - 1 {
      EntriesAt(kept, n - 1, k);
    }
  }

  lemma {:induction false} FoundInEntries(kept: seq<Combo>, entries: seq<Byte>, n: nat)
    requires AllShaped(kept) && |kept| <= COMBOS && n <= COMBOS
    requires forall k :: 0 <= k < |kept| ==> Carries(kept[k].input) && !kept[k].Empty()
    requires entries == Entries(kept, |kept|) + Fill((COMBOS - |kept|) * ENTRY, 0)
    ensures Found(entries, n) == kept[..Min(n, |kept|)]
  {
    hide EntryCombo, EntryBytes, Entries;
    if n > 0 {
      FoundInEntries(kept, entries, n - 1);
      if n <= |kept| {
        EntriesAt(kept, |kept|, n - 1);
        assert EntryAt(entries, n - 1) == EntryAt(Entries(kept, |kept|), n - 1);
        EntryRoundTrip(kept[n - 1]);
      } else {
        assert EntryAt(entries, n - 1) == Fill(ENTRY, 0);
        ZeroEntry();
      }
    }
  }

  /** Combos read back compacted to the front. */
  lemma CombosRoundTrip(combos: seq<Combo>)
    requires AllShaped(combos) && |combos| == COMBOS && AllCarried(combos)
    ensures CombosOf(ComboBytes(combos)) == Compact(combos)
  {
    hide Entries, EntryCombo, Found, Kept, Marked, Words;
    var kept := Kept(combos, COMBOS);
    var entries := Entries(kept, |kept|) + Fill((COMBOS - |kept|) * ENTRY, 0);
    MarkedSection(entries);
    FoundInEntries(kept, entries, COMBOS);
    assert kept[..|kept|] == kept;
  }

  lemma {:induction false} KeptAll(found: seq<Combo>, more: seq<Combo>, n: nat)
    requires AllShaped(found) && AllShaped(more) && n <= |found| + |more|
    requires (forall k :: 0 <= k < |found| ==> !found[k].Empty()) && (forall k :: 0 <= k < |more| ==> more[k].Empty())
    ensures Kept(found + more, n) == found[..Min(n, |found|)]
  {
    if n > 0 {
      KeptAll(found, more, n - 1);
    }
  }

  /** What is read is compact already. */
  lemma ReadIsCompact(section: seq<Byte>)
    requires |section| == COMBO_BYTES || section == []
    ensures Compact(CombosOf(section)) == CombosOf(section)
  {
    hide Kept, Found;
    var found := if section == [] || !Marked(section) then [] else Found(section[4..], COMBOS);
    var more := seq(COMBOS - |found|, _ => NO_COMBO);
    assert CombosOf(section) == found + more;
    KeptAll(found, more, COMBOS);
    assert found[..|found|] == found;
  }

  // ---- What an edit may set

  /** Pressed buttons from the front, each one a combo can press and none twice, ended by none. */
  predicate PressesOk(buttons: seq<Target>) {
    forall k :: 0 <= k < |buttons| && buttons[k] != NONE ==>
      buttons[k] in MEMBERS && forall j :: 0 <= j < k ==> buttons[j] != NONE && buttons[j] != buttons[k]
  }

  predicate CombosOk(combos: seq<Combo>)
    requires AllShaped(combos)
  {
    && AllCarried(combos)
    && (forall n :: 0 <= n < |combos| && !combos[n].Empty() ==> PressesOk(combos[n].buttons))
    && (forall m, n :: 0 <= m < n < |combos| && !combos[m].Empty() && !combos[n].Empty() ==> combos[m].input != combos[n].input)
  }

  /** The first i combos are in their entries, the first n of them, and the rest is zero. */
  ghost predicate Placed(combos: seq<Combo>, i: nat, entries: seq<Byte>, n: nat)
    requires AllShaped(combos) && i <= |combos| == COMBOS
  {
    && n == |Kept(combos, i)| && (forall k :: 0 <= k < n ==> Carries(Kept(combos, i)[k].input))
    && entries == Entries(Kept(combos, i), n) + Fill((COMBOS - n) * ENTRY, 0)
  }

  function WithEntry(entries: seq<Byte>, n: nat, c: Combo): (r: seq<Byte>)
    requires |entries| == COMBOS * ENTRY && n < COMBOS && c.Shaped() && Carries(c.input)
    ensures |r| == |entries|
  {
    entries[..n * ENTRY] + EntryBytes(c) + entries[(n + 1) * ENTRY..]
  }

  lemma PlaceSkip(combos: seq<Combo>, i: nat, entries: seq<Byte>, n: nat)
    requires AllShaped(combos) && i < |combos| == COMBOS && Placed(combos, i, entries, n) && combos[i].Empty()
    ensures Placed(combos, i + 1, entries, n)
  {
    assert Kept(combos, i + 1) == Kept(combos, i);
  }

  lemma PlaceNext(combos: seq<Combo>, i: nat, entries: seq<Byte>, n: nat)
    requires AllShaped(combos) && i < |combos| == COMBOS && AllCarried(combos) && |entries| == COMBOS * ENTRY
    requires Placed(combos, i, entries, n) && !combos[i].Empty() && n < COMBOS
    ensures Placed(combos, i + 1, WithEntry(entries, n, combos[i]), n + 1)
  {
    hide EntryBytes;
    var kept, c := Kept(combos, i), combos[i];
    assert Kept(combos, i + 1) == kept + [c];
    EntriesPrefix(kept, kept + [c], n);
    assert Entries(kept + [c], n + 1) == Entries(kept, n) + EntryBytes(c);
    assert entries[..n * ENTRY] == Entries(kept, n);
    assert entries[(n + 1) * ENTRY..] == Fill((COMBOS - n - 1) * ENTRY, 0);
  }

  lemma PlaceDone(combos: seq<Combo>, entries: seq<Byte>, n: nat)
    requires AllShaped(combos) && |combos| == COMBOS && AllCarried(combos) && Placed(combos, COMBOS, entries, n)
    ensures SECTION_FLAG + entries == ComboBytes(combos)
  {
  }

  /** Fills the section entry by entry, skipping unused combos. */
  method EncodeCombos(combos: seq<Combo>) returns (section: seq<Byte>)
    requires AllShaped(combos) && |combos| == COMBOS && AllCarried(combos)
    ensures section == ComboBytes(combos)
  {
    var entries: seq<Byte> := Fill(COMBOS * ENTRY, 0);
    var n := 0;
    assert Placed(combos, 0, entries, n);
    hide Placed, WithEntry, ComboBytes;
    for i := 0 to COMBOS
      invariant n <= i && |entries| == COMBOS * ENTRY && Placed(combos, i, entries, n)
    {
      if combos[i].Empty() {
        PlaceSkip(combos, i, entries, n);
        continue;
      }
      PlaceNext(combos, i, entries, n);
      entries := WithEntry(entries, n, combos[i]);
      n := n + 1;
    }
    PlaceDone(combos, entries, n);
    section := SECTION_FLAG + entries;
  }

  lemma {:induction false} EntriesPrefix(a: seq<Combo>, b: seq<Combo>, n: nat)
    requires AllShaped(a) && AllShaped(b) && n <= |a| <= |b| && a == b[..|a|]
    requires forall k :: 0 <= k < |b| ==> Carries(b[k].input)
    ensures Entries(a, n) == Entries(b, n)
  {
    if n > 0 {
      EntriesPrefix(a, b, n - 1);
    }
  }
}
