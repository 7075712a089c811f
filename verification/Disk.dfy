/** The data directory as `persist` sees it: a temporary file and the directory
    entry of the state file. Encryption is opaque and injective, so a complete
    ciphertext is written `Whole(plain)` for the plaintext it seals; a file whose
    bytes never all arrived is `Torn` and cannot be opened. */
module Disk {
  import opened Basics

  datatype Content<+T> = Torn | Whole(plain: T)

  /** `synced`: the content itself is on stable storage. */
  datatype File<+T> = File(content: Content<T>, synced: bool)

  type Entry<+T> = Option<File<T>>

  /** `entries` are the values the state file's directory entry has had since the
      directory was last known durable: the first is what stable storage holds
      for sure, the last is what a reader sees now. */
  datatype Disk<+T> = Disk(tmp: Entry<T>, entries: seq<Entry<T>>)

  function Visible<T>(d: Disk<T>): Entry<T>
    requires d.entries != []
  {
    Last(d.entries)
  }

  function Create<T>(d: Disk<T>): Disk<T> {
    d.(tmp := Some(File(Torn, false)))
  }

  function Write<T>(d: Disk<T>, plain: T): Disk<T> {
    d.(tmp := Some(File(Whole(plain), false)))
  }

  function Sync<T>(d: Disk<T>): Disk<T> {
    if d.tmp.Some? then d.(tmp := Some(d.tmp.value.(synced := true))) else d
  }

  function Rename<T>(d: Disk<T>): Disk<T> {
    Disk(None, d.entries + [d.tmp])
  }

  function SyncDirectory<T>(d: Disk<T>): Disk<T>
    requires d.entries != []
  {
    d.(entries := [Visible(d)])
  }

  /** What a power loss makes of a file: unsynced content may be lost. */
  function AfterOutage<T>(e: Entry<T>): Entry<T> {
    if e.Some? && !e.value.synced then Some(File(Torn, false)) else e
  }

  /** A power loss in which the directory comes back as its `i`-th possible value. */
  function Outage<T>(d: Disk<T>, i: nat): Disk<T>
    requires i < |d.entries|
  {
    Disk(AfterOutage(d.tmp), [AfterOutage(d.entries[i])])
  }

  /** A file whose content was not on stable storage cannot be read after a power loss;
      one whose content was is as it was. The temporary file fares the same. */
  lemma OutageLosesUnsynced<T>(d: Disk<T>, i: nat)
    requires i < |d.entries|
    ensures var e := Visible(Outage(d, i));
            && (d.entries[i] == None ==> e == None)
            && (d.entries[i].Some? && d.entries[i].value.synced ==> e == d.entries[i])
            && (d.entries[i].Some? && !d.entries[i].value.synced ==> e.Some? && e.value.content.Torn?)
    ensures d.tmp.Some? && !d.tmp.value.synced ==>
              Outage(d, i).tmp.Some? && Outage(d, i).tmp.value.content.Torn?
  {
  }
}
