/**
 * The `服用` command of `handlers/inventory_handlers.py`: the message is parsed into a pill
 * name and a quantity, and the item is used through the inventory service.
 */
module InventoryHandlers {
  import opened Wrappers
  import opened Models
  import opened Text
  import opened InventoryRepo
  import opened InventoryService
  import UserRepo

  /** The reply to a user who has not yet detected their spiritual roots. */
  const NoTalentReply: string := "你尚未踏入修仙之路，请先使用「检测灵根」命令"
  const FormatReply: string := "命令格式错误，请使用：服用 <丹药名>[*数量]"
  const NoPillReply: string := "请指定要服用的丹药"
  const NotNumberReply: string := "数量必须是数字"
  /** The reply of the corrected parser to a quantity below one. */
  const NotPositiveReply: string := "数量必须是正整数"

  /** A parsed `服用` command: refused with a reply, or the name and quantity to use. */
  datatype PillCommand = Reject(reply: string) | Use(name: string, quantity: int)

  /** The text after the command word: `message.strip()[3:].strip()`. */
  function PillInfo(message: string): string {
    Strip(Drop(Strip(message), 3))
  }

  /**
   * `take_pill`'s parsing as written: the stripped message must start with `服用`; three
   * characters are dropped and the rest stripped; text before the first `*` is the name,
   * unstripped, and `int()` of the text after it the quantity, which may be any integer.
   */
  function ParseTakePill(message: string): (c: PillCommand)
    ensures !StartsWith(Strip(message), "服用") ==> c == Reject(FormatReply)
    ensures StartsWith(Strip(message), "服用") && PillInfo(message) == "" ==> c == Reject(NoPillReply)
    ensures c.Use? ==> StartsWith(Strip(message), "服用") && PillInfo(message) != ""
    ensures c.Use? && '*' !in PillInfo(message) ==> c == Use(PillInfo(message), 1)
    ensures c.Use? && '*' in PillInfo(message) ==>
              var info := PillInfo(message);
              && |c.name| < |info| && info[..|c.name|] == c.name && '*' !in c.name && info[|c.name|] == '*'
              && ParseInt(info[|c.name| + 1..]) == Some(c.quantity)
    ensures c.Reject? && StartsWith(Strip(message), "服用") && PillInfo(message) != "" ==>
              c.reply == NotNumberReply && '*' in PillInfo(message)
  {
    var m := Strip(message);
    if !StartsWith(m, "服用") then Reject(FormatReply)
    else
      var info := PillInfo(message);
      if info == "" then Reject(NoPillReply)
      else
        match IndexOf(info, '*')
        case None => Use(info, 1)
        case Some(k) =>
          match ParseInt(info[k + 1..])
          case None => Reject(NotNumberReply)
          case Some(q) => Use(info[..k], q)
  }

  /** The command word, a space, and text whose ends are not whitespace: the text is the pill info. */
  lemma PillInfoOfCommand(text: string)
    requires |text| > 0 && !IsSpace(text[0]) && !IsSpace(text[|text| - 1])
    ensures StartsWith(Strip("服用 " + text), "服用") && PillInfo("服用 " + text) == text
  {
    var msg := "服用 " + text;
    assert msg[|msg| - 1] == text[|text| - 1];
    StripUnspaced(msg);
    assert msg[..2] == "服用";
    assert msg[3..] == text;
    StripUnspaced(text);
  }

  /** The first `*` of `name*rest` is the one after the name when the name has none. */
  lemma FirstStar(name: string, rest: string)
    requires '*' !in name
    ensures IndexOf(name + "*" + rest, '*') == Some(|name|)
  {
    assert (name + "*" + rest)[|name|] == '*';
  }

  /** A command whose pill info has a `*` followed by a number uses that many of the text before it. */
  lemma ParseStarred(message: string, k: nat, q: int)
    requires StartsWith(Strip(message), "服用") && PillInfo(message) != ""
    requires IndexOf(PillInfo(message), '*') == Some(k) && ParseInt(PillInfo(message)[k + 1..]) == Some(q)
    ensures ParseTakePill(message) == Use(PillInfo(message)[..k], q)
  {
  }

  /** `name*q` has no whitespace at either end when the name starts with none. */
  lemma StarredEnds(name: string, q: int)
    requires |name| > 0 ==> !IsSpace(name[0])
    ensures var info := name + "*" + IntToString(q);
            |info| > 0 && !IsSpace(info[0]) && !IsSpace(info[|info| - 1])
  {
    var digits := IntToString(q);
    var info := name + "*" + digits;
    IntToStringEndsInDigit(q);
    var last := info[|info| - 1];
    assert last == digits[|digits| - 1];
    assert '0' <= last <= '9';
    assert info[0] == if |name| > 0 then name[0] else '*';
  }

  /** Pill info `name*rest` splits at the `*` into the name and the text after it. */
  lemma StarredSplit(name: string, rest: string)
    requires '*' !in name
    ensures var info := name + "*" + rest;
            IndexOf(info, '*') == Some(|name|) && info[..|name|] == name && info[|name| + 1..] == rest
  {
    FirstStar(name, rest);
    var info := name + "*" + rest;
    assert info[..|name|] == name;
    assert info[|name| + 1..] == rest;
  }

  /** `服用 <name>*<q>` reads back as the name and the quantity. */
  lemma TakePillRoundTrip(name: string, q: int)
    requires '*' !in name && (|name| > 0 ==> !IsSpace(name[0]))
    ensures ParseTakePill("服用 " + name + "*" + IntToString(q)) == Use(name, q)
  {
    var digits := IntToString(q);
    var info := name + "*" + digits;
    assert "服用 " + name + "*" + digits == "服用 " + info;
    StarredEnds(name, q);
    PillInfoOfCommand(info);
    StarredSplit(name, digits);
    ParseIntOfIntToString(q);
    ParseStarred("服用 " + info, |name|, q);
  }

  /** `服用 <name>` with no `*` uses one of the named pill. */
  lemma TakePillDefaultQuantity(name: string)
    requires name != "" && '*' !in name && !IsSpace(name[0]) && !IsSpace(name[|name| - 1])
    ensures ParseTakePill("服用 " + name) == Use(name, 1)
  {
    PillInfoOfCommand(name);
  }

  /**
   * Finding: the parser as written passes a negative quantity on. `has_item` holds for
   * any held row, and `remove_item` then adds to the stack: one pill held and
   * `服用 清灵丹*-5` leaves six.
   */
  lemma NegativeQuantityMintsItems(rows: map<Slot, Row>, userId: string, itemId: int)
    requires (userId, itemId) in rows && rows[(userId, itemId)].quantity == 1
    ensures ParseTakePill("服用 清灵丹*-5") == Use("清灵丹", -5)
    ensures Has(rows, userId, itemId, -5)
    ensures Removed(rows, userId, itemId, -5).Some?
    ensures Held(Removed(rows, userId, itemId, -5).value, userId, itemId) == 6
  {
    assert "服用 " + "清灵丹" + "*" + IntToString(-5) == "服用 清灵丹*-5" by {
      assert NatToString(5) == "5";
    }
    assert ParseTakePill("服用 " + "清灵丹" + "*" + IntToString(-5)) == Use("清灵丹", -5) by {
      TakePillRoundTrip("清灵丹", -5);
    }
  }

  /** The corrected parser: as written, but a quantity below one is refused. */
  function ParseTakePillChecked(message: string): (c: PillCommand)
    ensures c.Use? ==> c.quantity >= 1 && ParseTakePill(message) == c
    ensures ParseTakePill(message).Reject? ==> c == ParseTakePill(message)
    ensures ParseTakePill(message).Use? && ParseTakePill(message).quantity < 1 ==> c == Reject(NotPositiveReply)
  {
    match ParseTakePill(message)
    case Use(name, q) => if q < 1 then Reject(NotPositiveReply) else Use(name, q)
    case r => r
  }

  /** With the corrected parser, using an item never adds to any stack. */
  lemma CheckedUseNeverGrows(message: string, rows: map<Slot, Row>, userId: string, itemId: int)
    requires ParseTakePillChecked(message).Use?
    requires Removed(rows, userId, itemId, ParseTakePillChecked(message).quantity).Some?
    ensures var after := Removed(rows, userId, itemId, ParseTakePillChecked(message).quantity).value;
            Held(after, userId, itemId) < Held(rows, userId, itemId)
            && forall u, i :: (u, i) != (userId, itemId) ==> Held(after, u, i) == Held(rows, u, i)
  {
  }

  /**
   * `take_pill`: a user without talent is told to detect it first; a message that does
   * not parse gets its reply; otherwise the parsed name and quantity, whatever its sign, go
   * to `use_item`, whose message is the reply and whose effects are the command's.
   */
  method TakePill(svc: InventoryService, user: User, message: string) returns (raised: bool, reply: string)
    requires svc.users.Valid()
    modifies svc.users`rows, svc.inventory`rows
    ensures svc.users.Valid()
    ensures !Truthy(user.talent) ==>
              !raised && reply == NoTalentReply
              && svc.users.rows == old(svc.users.rows) && svc.inventory.rows == old(svc.inventory.rows)
    ensures Truthy(user.talent) && ParseTakePill(message).Reject? ==>
              !raised && reply == ParseTakePill(message).reply
              && svc.users.rows == old(svc.users.rows) && svc.inventory.rows == old(svc.inventory.rows)
    ensures var c := ParseTakePill(message);
            Truthy(user.talent) && c.Use? && (svc.items.GetByName(c.name).None? ||
              !Has(old(svc.inventory.rows), user.userId, svc.items.GetByName(c.name).value.id, c.quantity)) ==>
              && !raised
              && reply == (if svc.items.GetByName(c.name).None? then "未找到物品: " + c.name else "你没有足够的 " + c.name)
              && svc.users.rows == old(svc.users.rows) && svc.inventory.rows == old(svc.inventory.rows)
    ensures var c := ParseTakePill(message);
            Truthy(user.talent) && c.Use? ==>
            var found := svc.items.GetByName(c.name);
            found.Some? && Has(old(svc.inventory.rows), user.userId, found.value.id, c.quantity)
            && Truthy(found.value.requirement) && !CheckRequirement(user, found.value.requirement.value) ==>
              !raised && reply == "不满足使用条件: " + found.value.requirement.value
              && svc.users.rows == old(svc.users.rows) && svc.inventory.rows == old(svc.inventory.rows)
    ensures var c := ParseTakePill(message);
            Truthy(user.talent) && c.Use? ==>
            var found := svc.items.GetByName(c.name);
            found.Some? && Has(old(svc.inventory.rows), user.userId, found.value.id, c.quantity)
            && !(Truthy(found.value.requirement) && !CheckRequirement(user, found.value.requirement.value)) ==>
              var e := EffectOf(user, found.value, c.quantity);
              && (raised <==> e.Raises?)
              && (!e.Raises? ==> reply == e.message)
              && svc.users.rows == (if e.Applied? && e.save then UserRepo.Updated(old(svc.users.rows), e.user) else old(svc.users.rows))
              && svc.inventory.rows == if e.Applied? then Removed(old(svc.inventory.rows), user.userId, found.value.id, c.quantity).value
                                       else old(svc.inventory.rows)
  {
    if !Truthy(user.talent) {
      return false, NoTalentReply;
    }
    var command := ParseTakePill(message);
    if command.Reject? {
      return false, command.reply;
    }
    var ok, u;
    raised, ok, reply, u := svc.UseItem(user, command.name, command.quantity);
  }
}
