/** The store object: its data map is edited in place and its files are rewritten
    step by step. Each call is shown to do what `StoreModel.Apply` says. */
module Store {
  import opened Basics
  import opened Disk
  import opened StoreModel
  import opened StoreLaws

  /** How the file system answers during one `persist`: the first failing step
      (0 sealing, 1 create, 2 write, 3 fsync, 4 chmod, 5 rename; 6 or more for
      none) and whether the final directory fsync works. */
  datatype Io = Io(failsAt: nat, dirSyncs: bool)

  type Files = Disk<StoreData>

  /** A persist of `data` that met no error. */
  ghost predicate Saved(data: StoreData, before: Files, after: Files, io: Io) {
    && after.tmp == None
    && after.entries == (if io.dirSyncs then [] else before.entries) + [Some(File(Whole(data), true))]
  }

  /** A whole call: memory as specified; disk untouched when the call changed
      nothing; otherwise the new snapshot is in place on Ok, and on an error the
      state file is the old one. */
  ghost predicate Did(op: Op, data: StoreData, files: Files, data': StoreData, files': Files, io: Io, r: Result<bool>) {
    && data' == Complete(op, data)
    && (r.Ok? ==> r.value == Apply(op, data).flag)
    && if !Apply(op, data).persists then r.Ok? && files' == files
       else (r.Ok? <==> io.failsAt > 5)
            && (r.Ok? ==> Saved(data', files, files', io))
            && (r.Err? ==> files'.entries == files.entries)
  }

  /** So every method below does what its operation means, field by field. */
  lemma DidWhatIsMeant(op: Op, data: StoreData, files: Files, data': StoreData, files': Files, io: Io,
                       r: Result<bool>)
    requires Did(op, data, files, data', files', io, r)
    ensures Meant(op, data, data')
  {
    CompleteIsMeant(op, data);
  }

  /** After an Ok that wrote, reopening the directory gives back exactly the data
      in memory, for data as the bot builds it. */
  lemma ReopeningRestores(op: Op, data: StoreData, files: Files, data': StoreData, files': Files, io: Io,
                          r: Result<bool>)
    requires files.entries != [] && Did(op, data, files, data', files', io, r) && r.Ok? && Apply(op, data).persists
    requires Good(data')
    ensures files'.entries != [] && Visible(files').Some? && Visible(files').value.content.Whole?
    ensures Reload(Visible(files').value.content.plain) == data'
  {
    GoodSurvivesReload(data');
  }

  class Store {
    var data: StoreData
    var files: Files

    ghost predicate Valid()
      reads this
    {
      files.entries != []
    }

    /** `Store::open` on a directory whose state file is complete, or absent. */
    constructor (files: Files)
      requires files.entries != []
      requires Visible(files).Some? ==> Visible(files).value.content.Whole?
      ensures Valid() && this.files == files
      ensures data == if Visible(files).Some? then Reload(Visible(files).value.content.plain) else map[]
    {
      this.files := files;
      data := match Visible(files)
        case None => map[]
        case Some(f) => Reload(f.content.plain);
    }

    method Persist(io: Io) returns (ok: bool)
      requires Valid()
      modifies `files
      ensures Valid() && (ok <==> io.failsAt > 5)
      ensures ok ==> Saved(data, old(files), files, io)
      ensures !ok ==> files.entries == old(files.entries)
    {
      if io.failsAt == 0 { return false; }
      if io.failsAt == 1 { return false; }
      files := Create(files);
      if io.failsAt == 2 { return false; }
      files := Write(files, data);
      if io.failsAt == 3 { return false; }
      files := Sync(files);
      if io.failsAt <= 5 { return false; }
      files := Rename(files);
      if io.dirSyncs {
        files := SyncDirectory(files);
      }
      return true;
    }

    method Finish(flag: bool, io: Io) returns (r: Result<bool>)
      requires Valid()
      modifies `files
      ensures Valid() && (r.Ok? <==> io.failsAt > 5)
      ensures r.Ok? ==> r.value == flag && Saved(data, old(files), files, io)
      ensures r.Err? ==> files.entries == old(files.entries)
    {
      var ok := Persist(io);
      r := if ok then Ok(flag) else Err;
    }

    method SetAccount(chat: int, account: Account, io: Io) returns (r: Result<bool>)
      requires Valid()
      modifies this
      ensures Valid() && Did(Set(chat, account), old(data), old(files), data, files, io, r)
    {
      data := data[chat := account];
      r := Finish(true, io);
    }

    method UpdateState(chat: int, state: string, io: Io) returns (r: Result<bool>)
      requires Valid()
      modifies this
      ensures Valid() && Did(Op.UpdateState(chat, state), old(data), old(files), data, files, io, r)
    {
      if chat !in data { return Ok(false); }
      var a := data[chat];
      if a.accounts != map[] {
        var k := LeastKey(a.accounts.Keys);
        data := data[chat := a.(accounts := a.accounts[k := a.accounts[k].(lastState := Some(state))])];
      } else {
        assert data == data[chat := a];
      }
      r := Finish(true, io);
    }

    /** `generated` is the id made up when the slot comes without one. */
    method AddAccount(chat: int, slot: AccountSlot, generated: string, io: Io) returns (id: string, r: Result<bool>)
      requires Valid()
      modifies this
      ensures id == if slot.slotId == "" then generated else slot.slotId
      ensures Valid() && Did(Op.AddAccount(chat, slot.(slotId := id)), old(data), old(files), data, files, io, r)
    {
      id := if slot.slotId == "" then generated else slot.slotId;
      var stored := slot.(slotId := id);
      if chat !in data {
        data := data[chat := NEW_ACCOUNT];
      }
      var a := data[chat];
      data := data[chat := a.(accounts := a.accounts[id := stored])];
      assert data == Complete(Op.AddAccount(chat, stored), old(data));
      r := Finish(true, io);
    }

    method RemoveAccount(chat: int, slotId: string, io: Io) returns (r: Result<bool>)
      requires Valid()
      modifies this
      ensures Valid() && Did(Op.RemoveAccount(chat, slotId), old(data), old(files), data, files, io, r)
    {
      var removed, isEmpty := false, false;
      if chat in data {
        var a := data[chat];
        removed := slotId in a.accounts;
        if removed {
          a := a.(accounts := a.accounts - {slotId}, shared := WithoutChildren(a.shared, slotId));
          data := data[chat := a];
        }
        isEmpty := a.accounts == map[];
      }
      if removed {
        if isEmpty {
          data := data - {chat};
        }
        r := Finish(removed, io);
        return;
      }
      r := Ok(removed);
    }

    method UpdateAccountState(chat: int, slotId: string, state: string, io: Io) returns (r: Result<bool>)
      requires Valid()
      modifies this
      ensures Valid() && Did(Op.UpdateAccountState(chat, slotId, state), old(data), old(files), data, files, io, r)
    {
      if chat !in data || slotId !in data[chat].accounts { return Ok(false); }
      var a := data[chat];
      data := data[chat := a.(accounts := a.accounts[slotId := a.accounts[slotId].(lastState := Some(state))])];
      r := Finish(true, io);
    }

    method SetAccountThreadId(chat: int, slotId: string, threadId: Option<int>, io: Io) returns (r: Result<bool>)
      requires Valid()
      modifies this
      ensures Valid() && Did(SetAccountThread(chat, slotId, threadId), old(data), old(files), data, files, io, r)
    {
      if chat !in data || slotId !in data[chat].accounts { return Ok(false); }
      var a := data[chat];
      data := data[chat := a.(accounts := a.accounts[slotId := a.accounts[slotId].(threadId := threadId)])];
      r := Finish(true, io);
    }

    method SetSharedAccountThreadId(chat: int, id: string, threadId: Option<int>, io: Io) returns (r: Result<bool>)
      requires Valid()
      modifies this
      ensures Valid() && Did(SetSharedThread(chat, id, threadId), old(data), old(files), data, files, io, r)
    {
      if chat !in data || id !in data[chat].shared { return Ok(false); }
      var a := data[chat];
      data := data[chat := a.(shared := a.shared[id := a.shared[id].(threadId := threadId)])];
      r := Finish(true, io);
    }

    method SetThreadsEnabled(chat: int, enabled: Option<bool>, io: Io) returns (r: Result<bool>)
      requires Valid()
      modifies this
      ensures Valid() && Did(Op.SetThreadsEnabled(chat, enabled), old(data), old(files), data, files, io, r)
    {
      if chat !in data { return Ok(false); }
      data := data[chat := data[chat].(threadsEnabled := enabled)];
      r := Finish(true, io);
    }

    method SetLanguage(chat: int, lang: string, io: Io) returns (r: Result<bool>)
      requires Valid()
      modifies this
      ensures Valid() && Did(Op.SetLanguage(chat, lang), old(data), old(files), data, files, io, r)
    {
      if chat !in data { return Ok(false); }
      data := data[chat := data[chat].(language := Some(lang))];
      r := Finish(true, io);
    }

    method SetSharedAccount(chat: int, id: string, name: string, lastState: Option<string>, parent: Option<string>,
                            io: Io)
      returns (r: Result<bool>)
      requires Valid()
      modifies this
      ensures Valid() && Did(SetShared(chat, id, name, lastState, parent), old(data), old(files), data, files, io, r)
    {
      if chat !in data { return Ok(false); }
      var a := data[chat];
      data := data[chat := a.(shared := a.shared[id := SharedAccount(name, lastState, parent, None)])];
      r := Finish(true, io);
    }

    method RemoveSharedAccount(chat: int, id: string, io: Io) returns (r: Result<bool>)
      requires Valid()
      modifies this
      ensures Valid() && Did(RemoveShared(chat, id), old(data), old(files), data, files, io, r)
    {
      var removed := false;
      if chat in data {
        var a := data[chat];
        removed := id in a.shared;
        if removed {
          data := data[chat := a.(shared := a.shared - {id})];
        }
      }
      if removed {
        r := Finish(removed, io);
        return;
      }
      r := Ok(removed);
    }

    method UpdateSharedAccountState(chat: int, id: string, state: string, io: Io) returns (r: Result<bool>)
      requires Valid()
      modifies this
      ensures Valid() && Did(UpdateSharedState(chat, id, state), old(data), old(files), data, files, io, r)
    {
      if chat !in data || id !in data[chat].shared { return Ok(false); }
      var a := data[chat];
      data := data[chat := a.(shared := a.shared[id := a.shared[id].(lastState := Some(state))])];
      r := Finish(true, io);
    }

    /** `term` is already trimmed and lower-cased. */
    method Mute(chat: int, term: string, io: Io) returns (r: Result<bool>)
      requires Valid()
      modifies this
      ensures Valid() && Did(Op.Mute(chat, term), old(data), old(files), data, files, io, r)
    {
      if chat !in data || term in data[chat].muted { return Ok(false); }
      data := data[chat := data[chat].(muted := data[chat].muted + [term])];
      r := Finish(true, io);
    }

    method Unmute(chat: int, term: string, io: Io) returns (r: Result<bool>)
      requires Valid()
      modifies this
      ensures Valid() && Did(Op.Unmute(chat, term), old(data), old(files), data, files, io, r)
    {
      if chat !in data { return Ok(false); }
      var a := data[chat];
      var kept := Without(a.muted, term);
      if |kept| == |a.muted| { return Ok(false); }
      data := data[chat := a.(muted := kept)];
      r := Finish(true, io);
    }

    method Remove(chat: int, io: Io) returns (r: Result<bool>)
      requires Valid()
      modifies this
      ensures Valid() && Did(Op.Remove(chat), old(data), old(files), data, files, io, r)
    {
      var removed := chat in data;
      data := data - {chat};
      if removed {
        r := Finish(removed, io);
        return;
      }
      assert data == old(data);
      r := Ok(removed);
    }
  }
}
