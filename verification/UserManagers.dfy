/** The user manager object (core/src/user/user_manager.cpp). Its mutex makes each method atomic;
    the interleavings of the id counter itself are in module UserIds. */
module UserManagers {
  import opened Types
  import opened Exchange

  class UserManager {
    var nextId: int
    var orderToUser: map<int, int>
    var positions: map<int, Position>
    var users: seq<int>

    ghost function View(): Ledger
      reads this
    {
      Ledger(orderToUser, positions, users, nextId)
    }

    constructor ()
      ensures View() == Ledger(map[], map[], [], 1)
    {
      nextId, orderToUser, positions, users := 1, map[], map[], [];
    }

    method NextUserId() returns (id: int)
      modifies this
      ensures View() == NewUser(old(View())) && id == old(nextId)
    {
      id := nextId;
      nextId := nextId + 1;
      positions := positions[id := DEFAULT_POSITION];
      users := users + [id];
    }

    method ReconnectUserId(uid: int) returns (id: int)
      modifies this
      ensures View() == ReconnectUser(old(View()), uid)
      ensures id == if uid <= 0 then old(nextId) else uid
    {
      if uid <= 0 {
        id := NextUserId();
        return;
      }
      if nextId <= uid {
        nextId := uid + 1;
      }
      if uid !in positions {
        positions := positions[uid := DEFAULT_POSITION];
      }
      if uid !in users {
        users := users + [uid];
      }
      return uid;
    }

    method RegisterOrder(orderId: int, userId: int)
      modifies this`orderToUser
      ensures View() == old(View()).(owner := old(orderToUser)[orderId := userId])
    {
      orderToUser := orderToUser[orderId := userId];
    }

    method GetUserForOrder(orderId: int) returns (u: int)
      ensures u == View().OwnerOf(orderId)
    {
      u := if orderId in orderToUser then orderToUser[orderId] else 0;
    }

    method GetPosition(u: int) returns (p: Position)
      ensures p == View().Get(u)
    {
      // positions_[u] creates this same default when it is written through
      p := if u in positions then positions[u] else DEFAULT_POSITION;
    }

    method OnOrderFill(makerOrderId: int, takerOrderId: int, price: int, qty: int, takerSide: Side)
      modifies this`positions
      ensures View() == OnFill(old(View()), makerOrderId, takerOrderId, price, qty, takerSide)
    {
      var makerUser := GetUserForOrder(makerOrderId);
      var takerUser := GetUserForOrder(takerOrderId);
      var value := price * qty;
      ghost var l := View();
      if takerSide == Buy {
        var p := GetPosition(takerUser);
        positions := positions[takerUser :=
          p.(balance := p.balance - value, shares := p.shares + qty, netQty := p.netQty + qty,
             totalBuyQty := p.totalBuyQty + qty, totalBuyValue := p.totalBuyValue + value)];
        assert View() == l.Set(takerUser, Bought(l.Get(takerUser), value, qty));
        p := GetPosition(makerUser);
        positions := positions[makerUser :=
          p.(balance := p.balance + value, shares := p.shares - qty,
             reservedShares := p.reservedShares - qty, netQty := p.netQty - qty,
             totalSellQty := p.totalSellQty + qty, totalSellValue := p.totalSellValue + value)];
      } else {
        var p := GetPosition(takerUser);
        positions := positions[takerUser :=
          p.(balance := p.balance + value, shares := p.shares - qty, netQty := p.netQty - qty,
             totalSellQty := p.totalSellQty + qty, totalSellValue := p.totalSellValue + value)];
        assert View() == l.Set(takerUser, Sold(l.Get(takerUser), value, qty));
        p := GetPosition(makerUser);
        positions := positions[makerUser :=
          p.(balance := p.balance - value, reservedBalance := p.reservedBalance - value,
             shares := p.shares + qty, netQty := p.netQty + qty,
             totalBuyQty := p.totalBuyQty + qty, totalBuyValue := p.totalBuyValue + value)];
      }
    }

    method OnOrderResting(orderId: int, side: Side, price: int, qty: int)
      modifies this`positions
      ensures View() == OnResting(old(View()), orderId, side, price, qty)
    {
      if orderId !in orderToUser {
        return;
      }
      var p := GetPosition(orderToUser[orderId]);
      if side == Buy {
        p := p.(reservedBalance := p.reservedBalance + price * qty);
      } else {
        p := p.(reservedShares := p.reservedShares + qty);
      }
      positions := positions[orderToUser[orderId] := p];
    }

    method OnOrderCancel(orderId: int, side: Side, price: int, remaining: int)
      modifies this`positions
      ensures View() == OnCancel(old(View()), orderId, side, price, remaining)
    {
      if orderId !in orderToUser {
        return;
      }
      var p := GetPosition(orderToUser[orderId]);
      if side == Buy {
        p := p.(reservedBalance := p.reservedBalance - price * remaining);
      } else {
        p := p.(reservedShares := p.reservedShares - remaining);
      }
      positions := positions[orderToUser[orderId] := p];
    }
  }
}
