/**
 * Colours of the overlay. Unlabelled boxes are drawn in a fixed red; a
 * labelled box gets a colour derived from its label, kept in a table so
 * that a label is coloured the same way for the rest of the session.
 */
module Colors {
  type Byte = x: int | 0 <= x < 256

  datatype Color = Rgb(r: Byte, g: Byte, b: Byte)

  /** The colour of boxes without a label. */
  const Red: Color := Rgb(255, 0, 0)

  /** Each channel of a label's colour is drawn from [BandLow, BandHigh):
      neither too dark nor too bright. */
  const BandLow: int := 64
  const BandHigh: int := 224

  predicate InBand(c: Color)
  {
    BandLow <= c.r < BandHigh && BandLow <= c.g < BandHigh && BandLow <= c.b < BandHigh
  }

  /** The colours a label can be given. The generator seeded with the
      label's hash is outside the model; only its range is known. */
  type LabelColor = c: Color | InBand(c) witness Rgb(64, 64, 64)

  /** The colour a label is drawn in. */
  function ColorFor(hash: string -> LabelColor, name: string): (c: Color)
    ensures name == "" <==> c == Red
    ensures name != "" ==> InBand(c) && c == hash(name)
  {
    if name == "" then Red else hash(name)
  }

  /** A table of label colours as the session builds it: the empty label is
      never stored, and every stored colour is the one the label's hash gives. */
  predicate Memo(table: map<string, Color>, hash: string -> LabelColor)
  {
    "" !in table && forall k :: k in table ==> table[k] == hash(k)
  }

  /** Looking a label up: the colour to use and the table afterwards. The
      empty label gives red and leaves the table alone; a stored label gives
      its stored colour; a new label is given its hash colour, which is added. */
  function Lookup(table: map<string, Color>, hash: string -> LabelColor, name: string)
    : (res: (Color, map<string, Color>))
    ensures name == "" ==> res == (Red, table)
    ensures name != "" && name in table ==> res == (table[name], table)
    ensures res.1.Keys == if name == "" then table.Keys else table.Keys + {name}
    ensures forall k :: k in table ==> res.1[k] == table[k]
    ensures name != "" ==> res.1[name] == res.0
    ensures name != "" && name !in table ==> InBand(res.0)
    ensures Memo(table, hash) ==> Memo(res.1, hash) && res.0 == ColorFor(hash, name)
  {
    if name == "" then (Red, table)
    else if name in table then (table[name], table)
    else
      var c: Color := hash(name);
      (c, table[name := c])
  }

  /** The table after looking up each label in turn. */
  function LookupAll(table: map<string, Color>, hash: string -> LabelColor, labels: seq<string>)
    : map<string, Color>
    decreases |labels|
  {
    if labels == [] then table
    else Lookup(LookupAll(table, hash, labels[..|labels| - 1]), hash, labels[|labels| - 1]).1
  }

  /** Looking up one more label. */
  lemma LookupAllSnoc(table: map<string, Color>, hash: string -> LabelColor, labels: seq<string>, name: string)
    ensures LookupAll(table, hash, labels + [name]) == Lookup(LookupAll(table, hash, labels), hash, name).1
  {
    assert (labels + [name])[..|labels|] == labels;
  }

  /** The table only grows: after any run of lookups it holds the labels it
      held before, with the same colours, plus exactly the non-empty labels
      looked up; and it stays consistent with the hash. */
  lemma {:induction false} LookupAllGrows(table: map<string, Color>, hash: string -> LabelColor, labels: seq<string>)
    ensures var t := LookupAll(table, hash, labels);
      t.Keys == table.Keys + (set l | l in labels && l != "") &&
      (forall k :: k in table ==> t[k] == table[k]) &&
      (Memo(table, hash) ==> Memo(t, hash))
    decreases |labels|
  {
    if labels != [] {
      var init := labels[..|labels| - 1];
      LookupAllGrows(table, hash, init);
      assert labels == init + [labels[|labels| - 1]];
      assert (set l | l in labels && l != "") ==
        (set l | l in init && l != "") + (if labels[|labels| - 1] == "" then {} else {labels[|labels| - 1]});
    }
  }
}
