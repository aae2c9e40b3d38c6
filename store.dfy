/**
 * The vulnerability store: the relations `vulnerabilities`, `products` and
 * `vulnerability_product_map`, the statements the loaders issue against them
 * (the INSERT ... ON CONFLICT upserts, the SELECT by cve_id, TRUNCATE), and the
 * transaction of the loaders' connection (commit and rollback).
 */
module Store {
  import opened Wrappers

  /** A CVSS base score as the feed gives it: stored and returned, never computed with. */
  datatype Score = Score(text: string)

  /**
   * The ten identity columns of a `products` row, in CPE order. `None` is SQL NULL,
   * distinct from the empty string.
   */
  datatype Cpe = Cpe(
    part: Option<string>,
    vendor: Option<string>,
    product: Option<string>,
    version: Option<string>,
    updateInfo: Option<string>,
    edition: Option<string>,
    language: Option<string>,
    swEdition: Option<string>,
    targetHw: Option<string>,
    other: Option<string>)

  /** The ten columns in order: part, vendor, product, version, update, edition, language, sw_edition, target_hw, other. */
  function Fields(c: Cpe): (fs: seq<Option<string>>)
    ensures |fs| == 10
  {
    [c.part, c.vendor, c.product, c.version, c.updateInfo, c.edition,
     c.language, c.swEdition, c.targetHw, c.other]
  }

  /** A `vulnerabilities` row other than its `cve_id` key. */
  datatype VulnRow = VulnRow(
    id: nat,
    description: string,
    cvssV31Score: Option<Score>,
    cvssV31Severity: Option<string>,
    cvssV40Score: Option<Score>,
    cvssV40Severity: Option<string>)

  /** A `vulnerability_product_map` row. */
  datatype Link = Link(vulnerabilityId: nat, productId: nat)

  /**
   * The contents of the three relations: `vulnerabilities` by its unique `cve_id`,
   * `products` by its unique ten-column tuple, and the set of link pairs.
   */
  datatype Tables = Tables(
    vulnerabilities: map<string, VulnRow>,
    products: map<Cpe, nat>,
    links: set<Link>)

  const NoTables := Tables(map[], map[], {})

  /**
   * Row ids come from one sequence per table: each is at least 1, below the
   * sequence's next value, and no two rows of a table share one.
   */
  ghost predicate WellFormed(t: Tables, vulnSeq: nat, productSeq: nat) {
    && (forall c :: c in t.vulnerabilities ==> 1 <= t.vulnerabilities[c].id < vulnSeq)
    && (forall c, d ::
          c in t.vulnerabilities && d in t.vulnerabilities && t.vulnerabilities[c].id == t.vulnerabilities[d].id
          ==> c == d)
    && (forall k :: k in t.products ==> 1 <= t.products[k] < productSeq)
    && (forall k, l ::
          k in t.products && l in t.products && t.products[k] == t.products[l]
          ==> k == l)
  }

  /** Raising a sequence keeps every id below it. */
  lemma WellFormedRaise(t: Tables, vulnSeq: nat, productSeq: nat, vulnSeq': nat, productSeq': nat)
    requires WellFormed(t, vulnSeq, productSeq) && vulnSeq <= vulnSeq' && productSeq <= productSeq'
    ensures WellFormed(t, vulnSeq', productSeq')
  {
  }

  /** A vulnerability row that keeps its CVE's id, or takes the sequence's next value, keeps the ids unique. */
  lemma WellFormedVuln(t: Tables, vulnSeq: nat, productSeq: nat, cveId: string, row: VulnRow)
    requires WellFormed(t, vulnSeq, productSeq) && vulnSeq >= 1
    requires cveId in t.vulnerabilities ==> row.id == t.vulnerabilities[cveId].id
    requires cveId !in t.vulnerabilities ==> row.id == vulnSeq
    ensures WellFormed(t.(vulnerabilities := t.vulnerabilities[cveId := row]), vulnSeq + 1, productSeq)
  {
  }

  /** A product row that keeps its tuple's id, or takes the sequence's next value, keeps the ids unique. */
  lemma WellFormedProduct(t: Tables, vulnSeq: nat, productSeq: nat, key: Cpe, id: nat)
    requires WellFormed(t, vulnSeq, productSeq) && productSeq >= 1
    requires key in t.products ==> id == t.products[key]
    requires key !in t.products ==> id == productSeq
    ensures WellFormed(t.(products := t.products[key := id]), vulnSeq, productSeq + 1)
  {
  }

  // ---------------------------------------------------------------------------
  // Links between CVE rows and identity rows
  // ---------------------------------------------------------------------------

  /** The (CVE, identity) pairs that link one CVE to a set of identities. */
  function Pairs(cveId: string, ids: set<Cpe>): set<(string, Cpe)> {
    set k | k in ids :: (cveId, k)
  }

  /** The links that a set of (CVE, identity) pairs denotes in a state of the tables. */
  ghost function PairLinks(t: Tables, pairs: set<(string, Cpe)>): set<Link> {
    set p | p in pairs && p.0 in t.vulnerabilities && p.1 in t.products ::
      Link(t.vulnerabilities[p.0].id, t.products[p.1])
  }

  /** `after` keeps every row of `before` under the same id. */
  ghost predicate Extends(before: Tables, after: Tables) {
    && (forall c :: c in before.vulnerabilities ==>
          c in after.vulnerabilities && after.vulnerabilities[c].id == before.vulnerabilities[c].id)
    && (forall k :: k in before.products ==> k in after.products && after.products[k] == before.products[k])
  }

  /** Pairs whose rows exist denote the same links in any state that keeps those rows. */
  lemma PairLinksStable(before: Tables, after: Tables, pairs: set<(string, Cpe)>)
    requires Extends(before, after)
    requires forall p :: p in pairs ==> p.0 in before.vulnerabilities && p.1 in before.products
    ensures PairLinks(after, pairs) == PairLinks(before, pairs)
  {
  }

  lemma PairLinksUnion(t: Tables, p: set<(string, Cpe)>, q: set<(string, Cpe)>)
    ensures PairLinks(t, p + q) == PairLinks(t, p) + PairLinks(t, q)
  {
  }

  /**
   * Product upserts and link inserts only: the vulnerabilities are untouched, every
   * identity in `ids` has a row (rows there were keep their ids), and the links the
   * pairs denote are added to the links there were.
   */
  ghost predicate Linked(before: Tables, after: Tables, ids: set<Cpe>, pairs: set<(string, Cpe)>) {
    && after.vulnerabilities == before.vulnerabilities
    && after.products.Keys == before.products.Keys + ids
    && (forall k :: k in before.products ==> after.products[k] == before.products[k])
    && after.links == before.links + PairLinks(after, pairs)
  }

  /**
   * Two rounds of upserts and links are one round for both, when the pairs of the
   * first name rows that exist after it.
   */
  lemma LinkedCompose(
    t0: Tables, t: Tables, t': Tables,
    ids: set<Cpe>, pairs: set<(string, Cpe)>, ids': set<Cpe>, pairs': set<(string, Cpe)>)
    requires Linked(t0, t, ids, pairs) && Linked(t, t', ids', pairs')
    requires forall p :: p in pairs ==> p.0 in t.vulnerabilities && p.1 in t.products
    ensures Linked(t0, t', ids + ids', pairs + pairs')
  {
    PairLinksStable(t, t', pairs);
    PairLinksUnion(t', pairs, pairs');
  }

  /** The writes that link one CVE's row to a set of identities. */
  ghost predicate IdentitiesLinked(before: Tables, after: Tables, cveId: string, ids: set<Cpe>) {
    Linked(before, after, ids, Pairs(cveId, ids))
  }

  /** Linking a CVE to some identities and then to more links it to both. */
  lemma IdentitiesCompose(t0: Tables, t: Tables, t': Tables, cveId: string, ids: set<Cpe>, more: set<Cpe>)
    requires IdentitiesLinked(t0, t, cveId, ids) && IdentitiesLinked(t, t', cveId, more)
    requires cveId in t0.vulnerabilities
    ensures IdentitiesLinked(t0, t', cveId, ids + more)
  {
    LinkedCompose(t0, t, t', ids, Pairs(cveId, ids), more, Pairs(cveId, more));
    assert Pairs(cveId, ids + more) == Pairs(cveId, ids) + Pairs(cveId, more);
  }

  /** Linking a CVE to no identities changes nothing. */
  lemma IdentityUnchanged(t: Tables, cveId: string)
    ensures IdentitiesLinked(t, t, cveId, {})
  {
    assert Pairs(cveId, {}) == {};
  }

  /** Upserting one identity and inserting the link from the CVE's row to it. */
  lemma IdentityLinked(t: Tables, t': Tables, cveId: string, vulnId: nat, key: Cpe, productId: nat)
    requires cveId in t.vulnerabilities && t.vulnerabilities[cveId].id == vulnId
    requires key in t.products ==> productId == t.products[key]
    requires t'.vulnerabilities == t.vulnerabilities
    requires t'.products == t.products[key := productId]
    requires t'.links == t.links + {Link(vulnId, productId)}
    ensures IdentitiesLinked(t, t', cveId, {key})
  {
    assert Pairs(cveId, {key}) == {(cveId, key)};
    assert PairLinks(t', {(cveId, key)}) == {Link(vulnId, productId)};
  }

  /**
   * The database as one loader connection sees it: the three relations with the
   * writes of its open transaction, the state as of the last commit, and the two
   * id sequences (which, as in PostgreSQL, a rollback does not rewind).
   */
  class VulnStore {
    var vulnerabilities: map<string, VulnRow>
    var products: map<Cpe, nat>
    var links: set<Link>
    var committed: Tables
    var vulnSeq: nat
    var productSeq: nat

    /** The relations including the uncommitted writes. */
    function Current(): Tables
      reads this
    {
      Tables(vulnerabilities, products, links)
    }

    ghost predicate Valid()
      reads this
    {
      && vulnSeq >= 1 && productSeq >= 1
      && WellFormed(Current(), vulnSeq, productSeq) && WellFormed(committed, vulnSeq, productSeq)
    }

    /** No transaction holds uncommitted writes. */
    predicate Settled()
      reads this
    {
      Current() == committed
    }

    /** An empty database whose sequences start at 1. */
    constructor ()
      ensures Valid() && Settled()
      ensures Current() == NoTables && vulnSeq == 1 && productSeq == 1
    {
      vulnerabilities, products, links := map[], map[], {};
      committed := NoTables;
      vulnSeq, productSeq := 1, 1;
    }

    /**
     * `SELECT id FROM vulnerabilities WHERE cve_id = ...` (BD/OSV.py:133-136): the
     * id of the row for that CVE, an id that no other CVE's row carries.
     */
    function CveRowId(cveId: string): (r: Option<nat>)
      requires Valid()
      reads this
      ensures r.Some? <==> cveId in vulnerabilities
      ensures r.Some? ==> r.value >= 1
      ensures r.Some? ==> forall c :: c in vulnerabilities && vulnerabilities[c].id == r.value ==> c == cveId
    {
      if cveId in vulnerabilities then Some(vulnerabilities[cveId].id) else None
    }

    /**
     * `INSERT INTO vulnerabilities ... ON CONFLICT (cve_id) DO UPDATE SET` the five
     * attributes `RETURNING id`. The sequence value is drawn before the conflict
     * check, so it is used up either way; on a conflict the old id is kept and
     * every attribute is overwritten.
     */
    method UpsertVulnerability(
      cveId: string, description: string,
      v31Score: Option<Score>, v31Severity: Option<string>,
      v40Score: Option<Score>, v40Severity: Option<string>)
      returns (id: nat)
      requires Valid()
      modifies this
      ensures Valid()
      ensures cveId in old(vulnerabilities) ==> id == old(vulnerabilities)[cveId].id
      ensures cveId !in old(vulnerabilities) ==> id == old(vulnSeq)
      ensures vulnerabilities ==
        old(vulnerabilities)[cveId := VulnRow(id, description, v31Score, v31Severity, v40Score, v40Severity)]
      ensures products == old(products) && links == old(links) && committed == old(committed)
      ensures vulnSeq == old(vulnSeq) + 1 && productSeq == old(productSeq)
    {
      var drawn := vulnSeq;
      id := if cveId in vulnerabilities then vulnerabilities[cveId].id else drawn;
      var row := VulnRow(id, description, v31Score, v31Severity, v40Score, v40Severity);
      WellFormedVuln(Current(), vulnSeq, productSeq, cveId, row);
      WellFormedRaise(committed, vulnSeq, productSeq, vulnSeq + 1, productSeq);
      vulnSeq := vulnSeq + 1;
      vulnerabilities := vulnerabilities[cveId := row];
    }

    /**
     * `INSERT INTO products ... ON CONFLICT (all ten columns) DO UPDATE SET
     * part = EXCLUDED.part RETURNING id`: the update rewrites `part` with the value
     * it already has, so an existing tuple keeps its row and id and nothing changes.
     */
    method UpsertProduct(key: Cpe) returns (id: nat)
      requires Valid()
      modifies this
      ensures Valid()
      ensures key in old(products) ==> id == old(products)[key]
      ensures key !in old(products) ==> id == old(productSeq)
      ensures products == old(products)[key := id]
      ensures vulnerabilities == old(vulnerabilities) && links == old(links) && committed == old(committed)
      ensures productSeq == old(productSeq) + 1 && vulnSeq == old(vulnSeq)
    {
      var drawn := productSeq;
      id := if key in products then products[key] else drawn;
      WellFormedProduct(Current(), vulnSeq, productSeq, key, id);
      WellFormedRaise(committed, vulnSeq, productSeq, vulnSeq, productSeq + 1);
      productSeq := productSeq + 1;
      products := products[key := id];
    }

    /**
     * `INSERT INTO vulnerability_product_map ... ON CONFLICT DO NOTHING`: a pair
     * already present is left as it is.
     */
    method InsertLink(link: Link)
      requires Valid()
      modifies this
      ensures Valid()
      ensures links == old(links) + {link}
      ensures vulnerabilities == old(vulnerabilities) && products == old(products)
      ensures committed == old(committed) && vulnSeq == old(vulnSeq) && productSeq == old(productSeq)
    {
      links := links + {link};
    }

    /**
     * The product upsert followed by the link insert, as both loaders issue them
     * (BD/carga_inicial.py:136-148, BD/OSV.py:138-169): the identity gets a row, or
     * keeps the one it has, and the CVE's row is linked to it.
     */
    method LinkIdentity(cveId: string, vulnId: nat, key: Cpe)
      requires Valid() && cveId in vulnerabilities && vulnerabilities[cveId].id == vulnId
      modifies this
      ensures Valid() && committed == old(committed)
      ensures IdentitiesLinked(old(Current()), Current(), cveId, {key})
    {
      ghost var before := Current();
      var productId := UpsertProduct(key);
      InsertLink(Link(vulnId, productId));
      IdentityLinked(before, Current(), cveId, vulnId, key, productId);
    }

    /** `conn.commit()`: the open transaction's writes become the committed state. */
    method Commit()
      requires Valid()
      modifies this
      ensures Valid() && Settled()
      ensures Current() == old(Current())
      ensures vulnSeq == old(vulnSeq) && productSeq == old(productSeq)
    {
      committed := Current();
    }

    /** `conn.rollback()`: the open transaction's writes are discarded; the sequences keep their values. */
    method Rollback()
      requires Valid()
      modifies this
      ensures Valid() && Settled()
      ensures committed == old(committed)
      ensures vulnSeq == old(vulnSeq) && productSeq == old(productSeq)
    {
      vulnerabilities, products, links := committed.vulnerabilities, committed.products, committed.links;
    }

    /**
     * `TRUNCATE TABLE ... RESTART IDENTITY CASCADE` on the three tables followed by
     * the commit that is issued right after it: all three relations are empty and
     * both sequences start over at 1.
     */
    method TruncateAndCommit()
      requires Valid()
      modifies this
      ensures Valid() && Settled()
      ensures Current() == NoTables
      ensures vulnSeq == 1 && productSeq == 1
    {
      vulnerabilities, products, links := map[], map[], {};
      committed := NoTables;
      vulnSeq, productSeq := 1, 1;
    }
  }
}
