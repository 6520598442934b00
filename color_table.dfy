/** The `allColors` table of src/Color.cpp and the two searches over it:
    by English name (`Color::find`) and by index (the loops in `fg` and `bg`). */
module ColorTable {

  /** `Color::color_id`, in the order of the table's rows. */
  datatype ColorId = NoColor | Black | Red | Green | Yellow | Blue | Magenta | Cyan | White

  /** One row of the table; its unused i18n column is not modelled. */
  datatype Entry = Entry(id: ColorId, name: string, index: nat)

  const AllColors: seq<Entry> := [
    Entry(NoColor, "", 0),
    Entry(Black, "black", 1),
    Entry(Red, "red", 2),
    Entry(Green, "green", 3),
    Entry(Yellow, "yellow", 4),
    Entry(Blue, "blue", 5),
    Entry(Magenta, "magenta", 6),
    Entry(Cyan, "cyan", 7),
    Entry(White, "white", 8)
  ]

  /** The numeric value of a `color_id`: its row in the table. */
  function Ordinal(id: ColorId): (n: nat)
    ensures n < |AllColors| && AllColors[n].id == id
  {
    match id
    case NoColor => 0
    case Black => 1
    case Red => 2
    case Green => 3
    case Yellow => 4
    case Blue => 5
    case Magenta => 6
    case Cyan => 7
    case White => 8
  }

  /** Every row's index is its position, and only the first row has an empty name. */
  lemma TableShape()
    ensures forall k :: 0 <= k < |AllColors| ==> AllColors[k].index == k
    ensures forall k :: 0 < k < |AllColors| ==> |AllColors[k].name| >= 3
  {
  }

  function FindFrom(input: string, i: nat): (r: int)
    requires i <= |AllColors|
    ensures r == -1 || i <= r < |AllColors|
    ensures r != -1 ==> AllColors[r].name == input
    ensures r != -1 ==> forall j :: i <= j < r ==> AllColors[j].name != input
    ensures r == -1 <==> forall j :: i <= j < |AllColors| ==> AllColors[j].name != input
    decreases |AllColors| - i
  {
    if i == |AllColors| then -1
    else if AllColors[i].name == input then i
    else FindFrom(input, i + 1)
  }

  /** `Color::find`: the first row whose name is `input`, or -1. */
  function Find(input: string): (r: int)
    ensures -1 <= r < |AllColors|
    ensures r != -1 ==> AllColors[r].name == input
    ensures r != -1 ==> forall j :: 0 <= j < r ==> AllColors[j].name != input
    ensures r == -1 <==> forall j :: 0 <= j < |AllColors| ==> AllColors[j].name != input
  {
    FindFrom(input, 0)
  }

  function NameFrom(index: int, i: nat): (r: string)
    requires i <= |AllColors|
    ensures (exists j :: i <= j < |AllColors| && AllColors[j].index == index) ==>
              exists j :: i <= j < |AllColors| && AllColors[j].index == index && r == AllColors[j].name
                && forall l :: i <= l < j ==> AllColors[l].index != index
    ensures (forall j :: i <= j < |AllColors| ==> AllColors[j].index != index) ==> r == ""
    decreases |AllColors| - i
  {
    if i == |AllColors| then ""
    else if AllColors[i].index == index then AllColors[i].name
    else NameFrom(index, i + 1)
  }

  /** The name of the first row whose index is `index`, or "" when there is none:
      the search `fg` and `bg` run in 16-colour mode. */
  function NameOf(index: int): (r: string)
    ensures 0 <= index < |AllColors| ==> r == AllColors[index].name
    ensures !(0 <= index < |AllColors|) ==> r == ""
  {
    TableShape();
    NameFrom(index, 0)
  }

  /** Looking a name up and naming the index found give the name back. */
  lemma NameOfFind(w: string)
    requires Find(w) != -1
    ensures NameOf(Find(w)) == w
  {
  }

  /** Naming an index and looking the name up give the index back. */
  lemma FindNameOf(i: int)
    requires 0 <= i < |AllColors|
    ensures Find(NameOf(i)) == i
  {
    TableShape();
    assert forall j, k :: 0 <= j < k < |AllColors| ==> AllColors[j].name != AllColors[k].name;
  }

  /** Every name in the table is made of lower-case letters. */
  lemma NameLetters(j: nat, i: nat)
    requires j < |AllColors| && i < |AllColors[j].name|
    ensures 'a' <= AllColors[j].name[i] <= 'z'
  {
    var n := AllColors[j].name;
    if j == 1 { assert n == "black"; }
    else if j == 2 { assert n == "red"; }
    else if j == 3 { assert n == "green"; }
    else if j == 4 { assert n == "yellow"; }
    else if j == 5 { assert n == "blue"; }
    else if j == 6 { assert n == "magenta"; }
    else if j == 7 { assert n == "cyan"; }
    else if j == 8 { assert n == "white"; }
  }

  /** No name in the table holds a digit. */
  lemma NamesHaveNoDigits(w: string, k: nat)
    requires k < |w| && '0' <= w[k] <= '9'
    ensures Find(w) == -1
  {
    var r := Find(w);
    if r != -1 {
      NameLetters(r, k);
    }
  }
}
