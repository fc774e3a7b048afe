/** Restore over the tables it updates. */
module Restorers {
  import opened Domain
  import opened Catalogue
  import opened Restoring

  // The library's restore: each item in a transaction of its own.
  class Restorer {
    const digest: Digest
    var tables: Tables
    var sources: Sources
    var tombstones: set<string>

    constructor (digest: Digest)
      ensures this.digest == digest && tables == EMPTY && sources == map[] && tombstones == {}
    {
      this.digest, tables, sources, tombstones := digest, EMPTY, map[], {};
    }

    method PlaceItem(e: Entry, now: Time) returns (placed: Attempt<(Tables, ItemId)>)
      requires TablesOk(tables)
      ensures placed == Place(tables, e, now)
    {
      var id := e.id;
      if e.id !in tables.items {
        var matches := if e.item.url == "" then {} else HasUrl(tables.items, e.item.url);
        if matches == {} {
          return Ok((tables.(items := tables.items[e.id := NewRow(e.item, now)]), e.id));
        }
        id :| id in matches;
        FindIsUnique(tables.items, e.id, e.item.url, id);
      }
      if tables.items[id].kind != e.item.kind || tables.items[id].url != e.item.url {
        return Err(Invalid);
      }
      return Ok((tables, id));
    }

    method FillCaptures(start: Tables, id: ItemId, cs: seq<ArchivedCapture>, disk: bool)
      returns (filled: Attempt<Tables>)
      ensures filled == RestoreCaptures(start, id, cs, disk)
    {
      var t := start;
      for k := 0 to |cs|
        invariant RestoreCaptures(start, id, cs[..k], disk) == Ok(t)
      {
        assert cs[..k + 1][..k] == cs[..k];
        var one := RestoreCapture(t, id, cs[k], disk);
        if one.Err? {
          CapturesStop(start, id, cs, k + 1, disk);
          return Err(one.error);
        }
        t := one.value;
      }
      assert cs[..|cs|] == cs;
      return Ok(t);
    }

    // The first edition is selected, unless the archive's selected one follows.
    method FillEditions(start: Tables, id: ItemId, item: Item, ds: seq<ArchivedEdition>, disk: bool)
      returns (filled: Attempt<(Tables, string)>)
      ensures filled == RestoreEditions(digest, start, id, item, ds, disk)
    {
      var t, selected := start, "";
      for k := 0 to |ds|
        invariant RestoreEditions(digest, start, id, item, ds[..k], disk) == Ok((t, selected))
      {
        assert ds[..k + 1][..k] == ds[..k];
        var one := RestoreEdition(digest, t, id, item, ds[k], disk);
        if one.Err? {
          EditionsStop(digest, start, id, item, ds, k + 1, disk);
          return Err(one.error);
        }
        t := one.value.0;
        if selected == "" || ds[k].job == Text(item.job) {
          selected := one.value.1;
        }
      }
      assert ds[..|ds|] == ds;
      return Ok((t, selected));
    }

    method FillItem(start: Tables, e: Entry, id: ItemId, disk: bool) returns (filled: Attempt<(Tables, string)>)
      ensures filled == Fill(digest, start, e, id, disk)
    {
      var captured := FillCaptures(start, id, e.captures, disk);
      if captured.Err? { return Err(captured.error); }
      filled := FillEditions(captured.value, id, e.item, Editions(e), disk);
      if filled.Err? || e.edit.None? { return; }
      filled := RestoreEdit(digest, filled.value.0, id, e.item, e.edit.value);
    }

    method RestoreItem(e: Entry, now: Time, disk: bool) returns (restored: Attempt<ItemId>)
      requires TablesOk(tables)
      modifies this`tables
      ensures match Restoring.RestoreItem(digest, old(tables), e, now, disk)
              case Ok(done) => restored == Ok(done.1) && tables == done.0
              case Err(error) => restored == Err(error) && tables == old(tables)
      ensures TablesOk(tables)
    {
      var placed := PlaceItem(e, now);
      if placed.Err? { return Err(placed.error); }
      var (t, id) := placed.value;
      var filled := FillItem(t, e, id, disk);
      if filled.Err? { return Err(filled.error); }
      PlaceAdds(tables, e, now);
      FillAdds(digest, t, e, id, disk);
      ItemAdds(digest, tables, e, now, disk);
      tables := Mark(filled.value.0, id, filled.value.1);
      return Ok(id);
    }

    method Restore(es: seq<Entry>, links: seq<Link>, removed: set<string>, now: Time, disk: nat -> bool)
      returns (count: nat, error: Option<Error>)
      requires TablesOk(tables)
      modifies this
      ensures TablesOk(tables)
      ensures !ManifestOk(es) ==> tables == old(tables) && error == Some(Invalid)
      ensures ManifestOk(es) ==>
                var r := RestoreAll(digest, old(tables), es, now, disk);
                tables == r.tables && count == |r.placed| && error == r.error
      ensures error.None? ==>
                var ids := RestoreAll(digest, old(tables), es, now, disk).placed;
                |ids| == |es| && sources == AddLinks(old(sources), links, Mapped(es, ids))
      ensures error.Some? ==> sources == old(sources)
      ensures tombstones == if error.None? then old(tombstones) + removed else old(tombstones)
    {
      var ok := CheckManifest(es);
      if !ok { return 0, Some(Invalid); }
      var placed;
      count, error, placed := RestoreItems(es, now, disk);
      if error.None? {
        Link(links, placed);
        tombstones := tombstones + removed;
      }
    }

    method RestoreItems(es: seq<Entry>, now: Time, disk: nat -> bool)
      returns (count: nat, error: Option<Error>, placed: map<ItemId, ItemId>)
      requires TablesOk(tables)
      modifies this`tables
      ensures TablesOk(tables)
      ensures var r := RestoreAll(digest, old(tables), es, now, disk);
              tables == r.tables && count == |r.placed| && error == r.error
              && (error.None? ==> |r.placed| == |es| && placed == Mapped(es, r.placed))
    {
      placed := map[];
      ghost var ids: seq<ItemId> := [];
      for k := 0 to |es|
        invariant TablesOk(tables) && |ids| == k
        invariant RestoreAll(digest, old(tables), es[..k], now, disk) == Run(tables, ids, None)
        invariant placed == Mapped(es[..k], ids)
      {
        OneOn(digest, old(tables), es, k, now, disk, tables, ids);
        var one := RestoreItem(es[k], now, disk(k));
        if one.Err? {
          RestoreStops(digest, old(tables), es, k + 1, now, disk);
          return k, Some(one.error), placed;
        }
        MappedOn(es, ids, k, one.value);
        placed := placed[es[k].id := one.value];
        ids := ids + [one.value];
      }
      assert es[..|es|] == es;
      return |es|, None, placed;
    }

    method Link(links: seq<Link>, placed: map<ItemId, ItemId>)
      modifies this`sources
      ensures sources == AddLinks(old(sources), links, placed)
    {
      for k := 0 to |links|
        invariant sources == AddLinks(old(sources), links[..k], placed)
      {
        assert links[..k + 1][..k] == links[..k];
        sources := AddLink(sources, links[k], placed);
      }
      assert links[..|links|] == links;
    }
  }
}
