/** The comma-joined group list of a managed user: `",".join(groups)` when a row is written,
    `[g for g in csv.split(",") if g]` when it is read. */
module GroupCodec {

  function Join(groups: seq<string>): string {
    if groups == [] then ""
    else if |groups| == 1 then groups[0]
    else groups[0] + "," + Join(groups[1..])
  }

  /** `split(",")`: one piece more than there are commas. */
  function Split(csv: string): (pieces: seq<string>)
    ensures pieces != []
  {
    if csv == "" then [""] else Prefixed(csv[0], Split(csv[1..]))
  }

  /** The pieces with one more character in front. */
  function Prefixed(c: char, pieces: seq<string>): (longer: seq<string>)
    requires pieces != []
    ensures longer != []
  {
    if c == ',' then [""] + pieces else [[c] + pieces[0]] + pieces[1..]
  }

  function DropEmpty(pieces: seq<string>): seq<string> {
    if pieces == [] then []
    else (if pieces[0] == "" then [] else [pieces[0]]) + DropEmpty(pieces[1..])
  }

  function Encode(groups: seq<string>): string {
    Join(groups)
  }

  function Decode(csv: string): seq<string> {
    DropEmpty(Split(csv))
  }

  predicate Clean(group: string) {
    group != "" && ',' !in group
  }

  lemma SplitCons(c: char, rest: string)
    ensures Split([c] + rest) == Prefixed(c, Split(rest))
  {
    assert ([c] + rest)[1..] == rest;
  }

  lemma PrefixedConcat(c: char, p: seq<string>, q: seq<string>)
    requires p != []
    ensures Prefixed(c, p + q) == Prefixed(c, p) + q
  {
    assert (p + q)[1..] == p[1..] + q;
  }

  lemma {:induction false} SplitConcat(a: string, b: string)
    ensures Split(a + "," + b) == Split(a) + Split(b)
  {
    if a == "" {
      assert "" + "," + b == [','] + b;
      SplitCons(',', b);
    } else {
      SplitConcat(a[1..], b);
      SplitCons(a[0], a[1..]);
      SplitCons(a[0], a[1..] + "," + b);
      PrefixedConcat(a[0], Split(a[1..]), Split(b));
      hide Split, Prefixed;
      assert a == [a[0]] + a[1..];
      assert a + "," + b == [a[0]] + (a[1..] + "," + b);
    }
  }

  lemma {:induction false} SplitCommaFree(g: string)
    requires ',' !in g
    ensures Split(g) == [g]
  {
    if g != "" {
      SplitCommaFree(g[1..]);
      assert g == [g[0]] + g[1..];
    }
  }

  lemma {:induction false} PiecesCommaFree(csv: string)
    ensures forall i | 0 <= i < |Split(csv)| :: ',' !in Split(csv)[i]
  {
    if csv != "" {
      PiecesCommaFree(csv[1..]);
    }
  }

  lemma DropEmptyCons(p: string, rest: seq<string>)
    ensures DropEmpty([p] + rest) == (if p == "" then [] else [p]) + DropEmpty(rest)
  {
    assert ([p] + rest)[1..] == rest;
  }

  lemma {:induction false} DropEmptyConcat(a: seq<string>, b: seq<string>)
    ensures DropEmpty(a + b) == DropEmpty(a) + DropEmpty(b)
  {
    if a == [] {
      assert a + b == b;
    } else {
      DropEmptyConcat(a[1..], b);
      DropEmptyCons(a[0], a[1..]);
      DropEmptyCons(a[0], a[1..] + b);
      hide DropEmpty;
      assert a == [a[0]] + a[1..];
      assert a + b == [a[0]] + (a[1..] + b);
    }
  }

  lemma {:induction false} DropEmptyKeepsOnlyNonEmpty(pieces: seq<string>)
    ensures forall g <- DropEmpty(pieces) :: g != "" && g in pieces
  {
    if pieces != [] {
      DropEmptyKeepsOnlyNonEmpty(pieces[1..]);
    }
  }

  /** Whatever is stored, what is read is a list of clean groups. */
  lemma DecodedAreClean(csv: string)
    ensures forall g <- Decode(csv) :: Clean(g)
  {
    PiecesCommaFree(csv);
    DropEmptyKeepsOnlyNonEmpty(Split(csv));
  }

  lemma {:induction false} CleanRoundTrip(groups: seq<string>)
    requires forall g <- groups :: Clean(g)
    ensures Decode(Encode(groups)) == groups
  {
    if groups == [] {
      assert Split("") == [""];
    } else {
      assert groups[0] in groups;
      SplitCommaFree(groups[0]);
      assert [groups[0]][1..] == [] && DropEmpty([]) == [];
      if |groups| == 1 {
        assert groups == [groups[0]];
      } else {
        CleanRoundTrip(groups[1..]);
        SplitConcat(groups[0], Join(groups[1..]));
        DropEmptyConcat([groups[0]], Split(Join(groups[1..])));
        assert groups == [groups[0]] + groups[1..];
      }
    }
  }

  /** Reading back gives the stored list exactly when no group is empty or contains a comma. */
  lemma RoundTripIffClean(groups: seq<string>)
    ensures Decode(Encode(groups)) == groups <==> forall g <- groups :: Clean(g)
  {
    DecodedAreClean(Encode(groups));
    if forall g <- groups :: Clean(g) {
      CleanRoundTrip(groups);
    }
  }

  /** Piece by piece: what is read of a string is what is read of the parts around a comma, and a part
      without commas is one group, unless it is empty. */
  lemma DecodeIs(a: string, b: string)
    ensures Decode(a + "," + b) == Decode(a) + Decode(b)
    ensures ',' !in a ==> Decode(a) == if a == "" then [] else [a]
  {
    SplitConcat(a, b);
    DropEmptyConcat(Split(a), Split(b));
    if ',' !in a {
      SplitCommaFree(a);
      assert [a][1..] == [] && DropEmpty([]) == [];
    }
  }

  lemma EncodeIs(group: string, rest: seq<string>)
    ensures Encode([]) == "" && Encode([group]) == group
    ensures rest != [] ==> Encode([group] + rest) == group + "," + Encode(rest)
  {
    assert ([group] + rest)[1..] == rest;
  }

  /** A list that was read survives being stored and read again. */
  lemma DecodeIsStable(csv: string)
    ensures Decode(Encode(Decode(csv))) == Decode(csv)
  {
    DecodedAreClean(csv);
    CleanRoundTrip(Decode(csv));
  }
}
