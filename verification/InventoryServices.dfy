/** The inventory services as operations on one repository (reservation, transfer, adjustment
    and sync under internal/core/inventory/features). */
module InventoryServices {
  import opened Common
  import opened Inventory

  class Services {
    var stock: map<Key, StockItem>
    var reservations: map<string, Reservation>
    var events: seq<StockEvent>

    ghost function View(): State
      reads this
    {
      State(stock, reservations, events)
    }

    constructor ()
      ensures View() == State(map[], map[], []) && Sound(View())
    {
      stock, reservations, events := map[], map[], [];
    }

    method SaveStock(key: Key, item: StockItem, works: bool) returns (ok: bool)
      modifies this`stock
      ensures ok == works && View() == Saved(old(View()), works, key, item)
    {
      if works {
        stock := stock[key := item];
      }
      return works;
    }

    method Emit(es: seq<StockEvent>, works: bool)
      modifies this`events
      ensures View() == Emitted(old(View()), works, es)
    {
      if works {
        events := events + es;
      }
    }

    method ReserveStock(variant: string, location: string, qty: int, env: Env) returns (status: Status)
      requires Sound(View())
      modifies this
      ensures (status, View()) == Step(old(View()), Reserve(variant, location, qty, env)) && Sound(View())
    {
      StepKeepsSound(View(), Reserve(variant, location, qty, env));
      hide Sound;
      var key := Key(variant, Location(location));
      if !env.read1 || key !in stock {
        return Internal;
      }
      var item := stock[key];
      var oldQty := item.quantity;
      if qty <= 0 {
        return BadRequest;
      }
      if item.allowBackorders {
        if item.quantity - qty < -item.backorderLimit {
          return Conflict;
        }
      } else if item.quantity < qty {
        return Conflict;
      }
      item := item.(quantity := item.quantity - qty);
      var saved := SaveStock(key, item, env.write1);
      if !saved {
        return Internal;
      }
      if env.id.None? {
        return Internal;
      }
      if Blank(variant) {
        var _ := SaveStock(key, item.(quantity := oldQty), env.undo);
        return BadRequest;
      }
      if !env.write2 || env.id.value in reservations {
        var _ := SaveStock(key, item.(quantity := oldQty), env.undo);
        return Internal;
      }
      reservations := reservations[env.id.value := Reservation(key, qty)];
      Emit([StockEvent(key, oldQty, item.quantity)], env.emit);
      return Ok;
    }

    method ReleaseReservation(id: string, env: Env) returns (status: Status)
      requires Sound(View())
      modifies this
      ensures (status, View()) == Step(old(View()), Release(id, env)) && Sound(View())
    {
      StepKeepsSound(View(), Release(id, env));
      hide Sound;
      if !env.read1 || id !in reservations {
        return NotFound;
      }
      var res := reservations[id];
      if !env.read2 || res.key !in stock {
        return Internal;
      }
      var item := stock[res.key];
      var oldQty := item.quantity;
      item := item.(quantity := item.quantity + res.quantity);
      var saved := SaveStock(res.key, item, env.write1);
      if !saved {
        return Internal;
      }
      if !env.write2 {
        var _ := SaveStock(res.key, item.(quantity := oldQty), env.undo);
        return Internal;
      }
      reservations := reservations - {id};
      Emit([StockEvent(res.key, oldQty, item.quantity)], env.emit);
      return Ok;
    }

    method TransferStock(variant: string, from: string, to: string, qty: int, env: Env) returns (status: Status)
      requires Sound(View())
      modifies this
      ensures (status, View()) == Step(old(View()), Transfer(variant, from, to, qty, env)) && Sound(View())
    {
      StepKeepsSound(View(), Transfer(variant, from, to, qty, env));
      hide Sound;
      if qty <= 0 {
        return BadRequest;
      }
      var src, dst := Key(variant, Location(from)), Key(variant, Location(to));
      if src == dst {
        return BadRequest;
      }
      if !env.read1 || src !in stock {
        return NotFound;
      }
      var source := stock[src];
      if qty > source.quantity {
        return Conflict;
      }
      var dest := FRESH_ITEM;
      if env.read2 && dst in stock {
        dest := stock[dst];
      }
      var sourceOldQty, destOldQty := source.quantity, dest.quantity;
      source := source.(quantity := source.quantity - qty);
      dest := dest.(quantity := dest.quantity + qty);
      var saved := SaveStock(src, source, env.write1);
      if !saved {
        return Internal;
      }
      saved := SaveStock(dst, dest, env.write2);
      if !saved {
        var _ := SaveStock(src, source.(quantity := sourceOldQty), env.undo);
        return Internal;
      }
      Emit([StockEvent(src, sourceOldQty, source.quantity), StockEvent(dst, destOldQty, dest.quantity)], env.emit);
      return Ok;
    }

    method AdjustStock(variant: string, location: string, qty: int, reason: string, env: Env) returns (status: Status)
      requires Sound(View())
      modifies this
      ensures (status, View()) == Step(old(View()), Adjust(variant, location, qty, reason, env)) && Sound(View())
    {
      StepKeepsSound(View(), Adjust(variant, location, qty, reason, env));
      hide Sound;
      var key := Key(variant, Location(location));
      if reason == "" {
        return BadRequest;
      }
      var item := FRESH_ITEM;
      if env.read1 && key in stock {
        item := stock[key];
      }
      var oldQty := item.quantity;
      var newQty := oldQty + qty;
      if newQty < 0 {
        return BadRequest;
      }
      item := item.(quantity := newQty);
      var saved := SaveStock(key, item, env.write1);
      if !saved {
        return Internal;
      }
      Emit([StockEvent(key, oldQty, item.quantity)], env.emit);
      return Ok;
    }

    method SyncStock(variant: string, location: string, qty: int, env: Env) returns (status: Status)
      requires Sound(View())
      modifies this
      ensures (status, View()) == Step(old(View()), Sync(variant, location, qty, env)) && Sound(View())
    {
      StepKeepsSound(View(), Sync(variant, location, qty, env));
      hide Sound;
      var key := Key(variant, Location(location));
      if !env.read1 {
        return Internal;
      }
      var item := FRESH_ITEM;
      if key in stock {
        item := stock[key];
      }
      var oldQty := item.quantity;
      if qty < 0 {
        return BadRequest;
      }
      item := item.(quantity := qty);
      var saved := SaveStock(key, item, env.write1);
      if !saved {
        return Internal;
      }
      Emit([StockEvent(key, oldQty, qty)], env.emit);
      return Ok;
    }
  }
}
