/** The table of supported card readers: parsed with uniqueness checks, searched by USB id. */
module ReaderTable {
  import opened Wrappers

  datatype Info = Info(known: bool, vendor: nat, products: set<nat>, name: string, url: string, pattern: string,
    icon: string)

  /** A field that must be a string holding a hexadecimal number. */
  datatype Hex = NoString | NoNumber | Number(value: nat)

  datatype Products = Many(ids: seq<Hex>) | Single(id: Hex) | NoProducts

  /** One element of the device array; an unusable driver entry has no URL. */
  datatype Entry = NoObject | Entry(vendor: Hex, products: Products, name: string, url: Option<string>,
    pattern: string, icon: string)

  const UNKNOWN := Info(false, 0, {}, "Unknown reader", "", "", "default_reader.png")

  function ProductIds(p: Products): Option<set<nat>> {
    match p
    case Many(ids) =>
      if forall i :: 0 <= i < |ids| ==> ids[i].Number? then Some(set i | 0 <= i < |ids| :: NumberOf(ids[i])) else None
    case Single(id) => if id.Number? then Some({id.value}) else None
    case NoProducts => None
  }

  function NumberOf(h: Hex): nat {
    if h.Number? then h.value else 0
  }

  /** The loop over the array stops at the first element that is no number. */
  method GetProductIds(p: Products) returns (ids: Option<set<nat>>)
    ensures ids == ProductIds(p)
  {
    match p {
      case Many(hs) =>
        var found: set<nat> := {};
        for i := 0 to |hs|
          invariant forall k :: 0 <= k < i ==> hs[k].Number?
          invariant found == set k | 0 <= k < i :: NumberOf(hs[k])
        {
          if !hs[i].Number? {
            return None;
          }
          found := found + {hs[i].value};
        }
        return Some(found);
      case Single(id) =>
        return if id.Number? then Some({id.value}) else None;
      case NoProducts =>
        return None;
    }
  }

  /** An entry that lacks something gives the unknown reader. */
  function ParseEntry(e: Entry): Info {
    if e.NoObject? || !e.vendor.Number? then UNKNOWN
    else
      var ids := ProductIds(e.products);
      if ids.None? || ids.value == {} || e.name == "" || e.url.None? then UNKNOWN
      else Info(true, e.vendor.value, ids.value, e.name, e.url.value, e.pattern, e.icon)
  }

  /** The numbers given for the products, if all are numbers. */
  ghost predicate ProductsAre(p: Products, ids: set<nat>) {
    match p
    case Many(hs) => (forall i :: 0 <= i < |hs| ==> hs[i].Number?) && forall n :: n in ids <==> Number(n) in hs
    case Single(h) => h.Number? && ids == {h.value}
    case NoProducts => false
  }

  lemma {:induction false} ProductIdsAre(p: Products)
    ensures ProductIds(p).Some? ==> ProductsAre(p, ProductIds(p).value)
    ensures ProductIds(p).None? ==> forall ids :: !ProductsAre(p, ids)
  {
    if p.Many? && ProductIds(p).Some? {
      forall n ensures n in ProductIds(p).value <==> Number(n) in p.ids {
        if Number(n) in p.ids {
          var i :| 0 <= i < |p.ids| && p.ids[i] == Number(n);
          assert NumberOf(p.ids[i]) == n;
        }
      }
    }
  }

  ghost predicate Usable(e: Entry) {
    && e.Entry? && e.vendor.Number? && e.name != "" && e.url.Some?
    && exists ids: set<nat> :: ids != {} && ProductsAre(e.products, ids)
  }

  /** A reader is known exactly when the entry has a vendor number, product numbers
      only and at least one, a name and a driver URL; and then it is what the entry says. */
  lemma {:induction false} ParseEntryMeans(e: Entry)
    ensures var r := ParseEntry(e);
      && (r.known <==> Usable(e))
      && (r.known ==>
           && Number(r.vendor) == e.vendor && ProductsAre(e.products, r.products) && r.name == e.name
           && Some(r.url) == e.url && r.pattern == e.pattern && r.icon == e.icon)
      && (!r.known ==> r == UNKNOWN)
  {
    if e.Entry? {
      ProductIdsAre(e.products);
      if ProductIds(e.products).Some? {
        forall ids | ProductsAre(e.products, ids) ensures ids == ProductIds(e.products).value {
        }
      }
    }
  }

  /** Why a reader is refused next to one already in the table. */
  predicate Clash(a: Info, b: Info) {
    || (a.vendor > 0 && a.products != {} && a.vendor == b.vendor && a.products * b.products != {})
    || a.name == b.name
    || (a.pattern != "" && a.pattern == b.pattern)
  }

  method HasUniqueId(info: Info, infos: seq<Info>) returns (unique: bool)
    ensures unique <==> forall k :: 0 <= k < |infos| ==> !Clash(info, infos[k])
  {
    for k := 0 to |infos|
      invariant forall j :: 0 <= j < k ==> !Clash(info, infos[j])
    {
      var other := infos[k];
      if info.vendor > 0 && info.products != {} && info.vendor == other.vendor && info.products * other.products != {} {
        return false;
      }
      if info.name == other.name {
        return false;
      }
      if info.pattern != "" && info.pattern == other.pattern {
        return false;
      }
    }
    return true;
  }

  predicate Unambiguous(infos: seq<Info>) {
    forall i, j :: 0 <= i < j < |infos| ==> !Clash(infos[j], infos[i])
  }

  predicate AllKnown(infos: seq<Info>) {
    forall i :: 0 <= i < |infos| ==> infos[i].known && infos[i].products != {} && infos[i].name != ""
  }

  function ParsedAll(entries: seq<Entry>): (r: seq<Info>)
    ensures |r| == |entries|
    ensures forall i {:trigger r[i]} :: 0 <= i < |entries| ==> r[i] == ParseEntry(entries[i])
  {
    seq(|entries|, i requires 0 <= i < |entries| => ParseEntry(entries[i]))
  }

  /** All entries, or none: the table is the parsed entries exactly when every one
      is a known reader and no two clash, and empty otherwise. */
  method Parse(entries: seq<Entry>) returns (infos: seq<Info>)
    ensures infos == if AllKnown(ParsedAll(entries)) && Unambiguous(ParsedAll(entries)) then ParsedAll(entries) else []
  {
    infos := [];
    for i := 0 to |entries|
      invariant infos == ParsedAll(entries)[..i]
      invariant AllKnown(infos) && Unambiguous(infos)
    {
      var info := ParseEntry(entries[i]);
      assert info == ParsedAll(entries)[i];
      if info.known {
        var unique := HasUniqueId(info, infos);
        if unique {
          infos := infos + [info];
        } else {
          return [];
        }
      } else {
        return [];
      }
    }
    assert ParsedAll(entries)[..|entries|] == ParsedAll(entries);
  }

  // ---- lookup ----

  predicate IsFor(info: Info, vendor: nat, product: nat) {
    vendor == info.vendor && product in info.products
  }

  function Lookup(infos: seq<Info>, vendor: nat, product: nat): Info {
    if infos == [] then UNKNOWN
    else if IsFor(infos[0], vendor, product) then infos[0]
    else Lookup(infos[1..], vendor, product)
  }

  class ReaderConfiguration {
    var infos: seq<Info>

    constructor ()
      ensures infos == []
    {
      infos := [];
    }

    /** A parse that gives nothing leaves the stored table as it is. */
    method ParseReaderConfiguration(content: Option<seq<Entry>>) returns (ok: bool)
      modifies this
      ensures ok <==>
        content.Some? && content.value != []
        && AllKnown(ParsedAll(content.value)) && Unambiguous(ParsedAll(content.value))
      ensures infos == if ok then ParsedAll(content.value) else old(infos)
    {
      if content.None? {
        return false;
      }
      var parsed := Parse(content.value);
      if parsed == [] {
        return false;
      }
      infos := parsed;
      return true;
    }

    method GetReaderConfigurationInfoById(vendor: nat, product: nat) returns (info: Info)
      ensures info == Lookup(infos, vendor, product)
    {
      for i := 0 to |infos|
        invariant Lookup(infos[i..], vendor, product) == Lookup(infos, vendor, product)
      {
        if IsFor(infos[i], vendor, product) {
          return infos[i];
        }
      }
      return UNKNOWN;
    }
  }

  /** The lookup gives an entry for the id when there is one, and the unknown
      reader exactly when there is none. */
  lemma {:induction false} LookupFinds(infos: seq<Info>, vendor: nat, product: nat)
    requires AllKnown(infos)
    ensures var r := Lookup(infos, vendor, product);
      && (r.known <==> exists i :: 0 <= i < |infos| && IsFor(infos[i], vendor, product))
      && (r.known ==> r in infos && IsFor(r, vendor, product))
      && (!r.known ==> r == UNKNOWN)
  {
    if infos != [] {
      LookupFinds(infos[1..], vendor, product);
      if !IsFor(infos[0], vendor, product) && Lookup(infos, vendor, product).known {
        var i :| 0 <= i < |infos[1..]| && IsFor(infos[1..][i], vendor, product);
        assert IsFor(infos[i + 1], vendor, product);
      }
    }
  }

  /** At most one entry of the table is for the id. */
  predicate OneFor(infos: seq<Info>, vendor: nat, product: nat) {
    forall i, j :: 0 <= i < j < |infos| ==> !(IsFor(infos[i], vendor, product) && IsFor(infos[j], vendor, product))
  }

  lemma {:induction false} UniqueForVendor(infos: seq<Info>, vendor: nat, product: nat)
    requires Unambiguous(infos) && vendor > 0
    ensures OneFor(infos, vendor, product)
  {
    forall i, j | 0 <= i < j < |infos| ensures !(IsFor(infos[i], vendor, product) && IsFor(infos[j], vendor, product)) {
      assert !Clash(infos[j], infos[i]);
      var common := infos[j].products * infos[i].products;
      assert product in infos[j].products && product in infos[i].products ==> product in common;
    }
  }

  /** A table is accepted exactly when names differ, patterns differ where there are
      any, and no real vendor's product has two entries. */
  lemma {:induction false} UnambiguousExactly(infos: seq<Info>)
    ensures Unambiguous(infos) <==>
      && (forall i, j :: 0 <= i < j < |infos| ==> infos[i].name != infos[j].name)
      && (forall i, j :: 0 <= i < j < |infos| && infos[i].pattern != "" ==> infos[i].pattern != infos[j].pattern)
      && (forall vendor, product :: vendor > 0 ==> OneFor(infos, vendor, product))
  {
    if Unambiguous(infos) {
      forall vendor: nat, product | vendor > 0 ensures OneFor(infos, vendor, product) {
        UniqueForVendor(infos, vendor, product);
      }
      forall i, j | 0 <= i < j < |infos|
        ensures infos[i].name != infos[j].name && (infos[i].pattern != "" ==> infos[i].pattern != infos[j].pattern)
      {
        assert !Clash(infos[j], infos[i]);
      }
    }
    if !Unambiguous(infos) {
      var i, j :| 0 <= i < j < |infos| && Clash(infos[j], infos[i]);
      var common := infos[j].products * infos[i].products;
      if infos[j].vendor > 0 && infos[j].vendor == infos[i].vendor && common != {} {
        var product :| product in common;
        assert !OneFor(infos, infos[i].vendor, product) by {
          assert IsFor(infos[i], infos[i].vendor, product) && IsFor(infos[j], infos[i].vendor, product);
        }
      }
    }
  }

  lemma {:induction false} LookupIs(infos: seq<Info>, vendor: nat, product: nat, i: nat)
    requires AllKnown(infos) && OneFor(infos, vendor, product)
    requires i < |infos| && IsFor(infos[i], vendor, product)
    ensures Lookup(infos, vendor, product) == infos[i]
  {
    LookupFinds(infos, vendor, product);
    var r := Lookup(infos, vendor, product);
    var j :| 0 <= j < |infos| && infos[j] == r;
    assert i == j;
  }

  /** For a real vendor the answer is the same for every order of an accepted table. */
  lemma {:induction false} OrderDoesNotMatter(a: seq<Info>, b: seq<Info>, vendor: nat, product: nat)
    requires AllKnown(a) && Unambiguous(a) && multiset(a) == multiset(b)
    requires vendor > 0
    ensures Lookup(a, vendor, product) == Lookup(b, vendor, product)
  {
    SameMembers(a, b);
    LookupFinds(a, vendor, product);
    LookupFinds(b, vendor, product);
    UniqueForVendor(a, vendor, product);
    var y := Lookup(b, vendor, product);
    if y.known {
      var i :| 0 <= i < |a| && a[i] == y;
      LookupIs(a, vendor, product, i);
    }
  }

  lemma {:induction false} SameMembers(a: seq<Info>, b: seq<Info>)
    requires multiset(a) == multiset(b) && AllKnown(a)
    ensures AllKnown(b) && forall x :: x in a <==> x in b
  {
    forall x ensures x in a <==> x in b {
      assert x in multiset(a) <==> x in multiset(b);
    }
    forall i | 0 <= i < |b| ensures b[i].known && b[i].products != {} && b[i].name != "" {
      assert b[i] in b;
    }
  }

  /** For vendor 0 the order decides exactly when two entries are for the id. */
  lemma {:induction false} VirtualVendor(infos: seq<Info>, product: nat)
    requires AllKnown(infos) && Unambiguous(infos)
    ensures OneFor(infos, 0, product)
       <==> forall other :: multiset(other) == multiset(infos) ==>
         Lookup(other, 0, product) == Lookup(infos, 0, product)
  {
    if OneFor(infos, 0, product) {
      forall other | multiset(other) == multiset(infos) ensures Lookup(other, 0, product) == Lookup(infos, 0, product) {
        SameMembers(infos, other);
        LookupFinds(infos, 0, product);
        LookupFinds(other, 0, product);
        var y := Lookup(other, 0, product);
        if y.known {
          var i :| 0 <= i < |infos| && infos[i] == y;
          LookupIs(infos, 0, product, i);
        }
      }
    } else {
      var i, j :| 0 <= i < j < |infos| && IsFor(infos[i], 0, product) && IsFor(infos[j], 0, product);
      var first := ToFront(infos, i);
      var second := ToFront(infos, j);
      assert infos[i].name != infos[j].name;
      assert Lookup(first, 0, product) == infos[i] && Lookup(second, 0, product) == infos[j];
    }
  }

  lemma {:induction false} ToFront(infos: seq<Info>, i: nat) returns (other: seq<Info>)
    requires i < |infos|
    ensures multiset(other) == multiset(infos) && other != [] && other[0] == infos[i]
  {
    other := [infos[i]] + infos[..i] + infos[i + 1..];
    assert infos == infos[..i] + [infos[i]] + infos[i + 1..];
  }
}
