/** The product catalog that is seeded into an empty store. */
module Catalog {
  import opened Ledger

  /** A well-formed catalog entry: it pays for at least one day, and its advertised
      total is the daily income times the cycle length. */
  predicate ValidProduct(p: Product) {
    p.cycleDays >= 1 && p.totalIncome == p.dailyIncome * p.cycleDays
  }

  /** A seed entry before its total is derived. */
  datatype Entry = Entry(name: string, price: nat, dailyIncome: nat, cycleDays: nat)

  /** The seed rule: the total income is derived from the daily income and the cycle. */
  function WithTotal(e: Entry): (p: Product)
    ensures p.name == e.name && p.price == e.price
    ensures p.dailyIncome == e.dailyIncome && p.cycleDays == e.cycleDays
    ensures e.cycleDays >= 1 ==> ValidProduct(p)
  {
    Product(e.name, e.price, e.dailyIncome, e.cycleDays, e.dailyIncome * e.cycleDays)
  }

  const SeedEntries: seq<Entry> := [
    Entry("Paket A", 100000, 3000, 30),
    Entry("Paket B", 150000, 4700, 30),
    Entry("Paket C", 200000, 6500, 30),
    Entry("Paket D", 250000, 8200, 30),
    Entry("Paket E", 300000, 10000, 30),
    Entry("Paket F", 350000, 11700, 30),
    Entry("Paket G", 500000, 17000, 30),
    Entry("Paket H", 1000000, 35000, 30),
    Entry("Paket I", 1500000, 53000, 30),
    Entry("Paket J", 2000000, 72000, 30),
    Entry("Paket K", 3000000, 110000, 30)
  ]

  /** The eleven seeded products, each a valid 30-day product. */
  function SeedCatalog(): (ps: seq<Product>)
    ensures |ps| == |SeedEntries| == 11
    ensures forall i :: 0 <= i < |ps| ==> ps[i] == WithTotal(SeedEntries[i])
    ensures forall i :: 0 <= i < |ps| ==> ValidProduct(ps[i]) && ps[i].cycleDays == 30
  {
    seq(|SeedEntries|, i requires 0 <= i < |SeedEntries| => WithTotal(SeedEntries[i]))
  }
}
