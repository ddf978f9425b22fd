/**
 The ntran_ procedures: they overwrite an item's pointers with the addresses of static buffers.

 A pointer is null, a string of the item table, or the address of a buffer; buffers keep whatever
 earlier items left in them. `statics` maps each buffer to the C string it holds now.
 */
module Translation {
  import opened Wrappers
  import opened Paths
  import opened Names
  import opened FileSystem
  import opened Items
  import opened HostSystem

  /** The static buffers, named after the procedure and the variable. */
  datatype Buffer =
    | BaseNamePath
    | CopySrcName | CopyDstName | CopyDstTmp
    | ExecSrcName | ExecDstName
    | LinkDirName
    | LiblinkDirName | LiblinkDstTmp | LiblinkSrcName | LiblinkSrcTmp
    | MkdirDirName
    | ChkLinkDstName | ChkLiblinkDstName

  datatype Pointer = Null | Literal(text: string) | Static(buffer: Buffer)

  /** A row of the table: the operation, owner and permissions stay, the three names are rewritten. */
  class Item {
    const op: Op
    const owner: Option<string>
    const group: Option<string>
    const perm: Mode
    var src: Pointer
    var dst: Pointer
    var dir: Pointer

    constructor (e: Entry)
      ensures op == e.op && owner == e.owner && group == e.group && perm == e.perm
      ensures src == ToPointer(e.src) && dst == ToPointer(e.dst) && dir == ToPointer(e.dir)
    {
      op, owner, group, perm := e.op, e.owner, e.group, e.perm;
      src, dst, dir := ToPointer(e.src), ToPointer(e.dst), ToPointer(e.dir);
    }

    /** No procedure has rewritten this item yet. */
    predicate Fresh()
      reads this
    {
      !src.Static? && !dst.Static? && !dir.Static?
    }

    /** The item as it was declared. */
    function Declared(): Entry
      requires Fresh()
      reads this
    {
      Entry(op, FromPointer(src), FromPointer(dst), FromPointer(dir), owner, group, perm)
    }
  }

  function ToPointer(name: Option<string>): Pointer {
    if name.Some? then Literal(name.value) else Null
  }

  function FromPointer(p: Pointer): Option<string> {
    if p.Literal? then Some(p.text) else None
  }

  class Translator {
    const host: Host
    var statics: map<Buffer, string>

    constructor (host: Host, statics: map<Buffer, string>)
      requires host.Valid() && host.cwd == host.env.cwd && forall b: Buffer :: b in statics
      ensures Valid() && this.host == host && this.statics == statics
    {
      this.host := host;
      this.statics := statics;
    }

    ghost predicate Valid()
      reads this, host
    {
      host.Valid() && host.cwd == host.env.cwd && forall b: Buffer :: b in statics
    }

    /** The C string a pointer leads to. */
    function Deref(p: Pointer): string
      requires p.Static? ==> p.buffer in statics
      reads this
    {
      match p
      case Null => ""
      case Literal(text) => text
      case Static(buffer) => statics[buffer]
    }

    /** The item's names, read through its pointers, are those of `t`. */
    ghost predicate Names(item: Item, t: Target)
      requires forall b: Buffer :: b in statics
      reads this, item
    {
      match t
      case CopyTarget(src, dst) =>
        item.src != Null && item.dst != Null && Deref(item.src) == src && Deref(item.dst) == dst
      case LinkTarget(dir, src, dst) =>
        && item.dir != Null && item.src != Null && item.dst != Null
        && Deref(item.dir) == dir && Deref(item.src) == src && Deref(item.dst) == dst
      case DirTarget(dir) =>
        item.dir != Null && Deref(item.dir) == dir
    }

    /** Puts a string into a static buffer. */
    method Store(buffer: Buffer, text: string) returns (p: Pointer)
      requires forall b: Buffer :: b in statics
      modifies this`statics
      ensures statics == old(statics)[buffer := text]
      ensures p == Static(buffer)
    {
      statics := statics[buffer := text];
      p := Static(buffer);
    }

    /** libname: open the file and take its first word. */
    method ReadName(p: Pointer) returns (r: Option<string>)
      requires p.Literal? && host.cwd == host.env.cwd
      ensures r == ReadLibraryName(host.env, host.fs, p.text)
    {
      var ok := host.OpenForReading(p.text);
      if !ok { return None; }
      var word := LibName(host.fs[host.Way(p.text).at].content);
      r := Some(word);
    }

    /** A name, or the name a virtual library file stands for, placed in `buffer`. */
    method Realise(p: Pointer, buffer: Buffer) returns (ok: bool, q: Pointer)
      requires Valid() && p.Literal?
      modifies this`statics
      ensures Valid()
      ensures var name := RealName(host.env, host.fs, p.text);
              (ok <==> name.Some?) && (ok ==> (q.Literal? || q == Static(buffer)) && Deref(q) == name.value)
      ensures forall b :: b != buffer ==> statics[b] == old(statics)[b]
    {
      var virtual := StrEnds(p.text, VIRTUAL_LIBRARY);
      if !virtual { return true, p; }
      var name := ReadName(p);
      if name.None? { return false, p; }
      q := Store(buffer, name.value);
      ok := true;
    }

    /** base_name into its one static buffer. */
    method TakeBaseName(p: Pointer) returns (ok: bool, q: Pointer)
      requires Valid() && p != Null
      modifies this`statics
      ensures Valid()
      ensures var name := ShortBasename(old(Deref(p)));
              && (ok <==> name.Some?)
              && (ok ==> q == Static(BaseNamePath) && statics[BaseNamePath] == name.value)
      ensures forall b :: b != BaseNamePath ==> statics[b] == old(statics)[b]
    {
      var name := BaseName(Deref(p));
      if name.None? { return false, p; }
      q := Store(BaseNamePath, name.value);
      ok := true;
    }

    method TranslateCopyItem(item: Item) returns (ok: bool)
      requires Valid() && item.Fresh()
      modifies this`statics, item`src, item`dst
      ensures Valid()
      ensures var t := TranslateCopy(host.env, host.fs, old(item.Declared()));
              (ok <==> t.Some?) && (ok ==> Names(item, t.value))
    {
      if item.src == Null { return false; }
      if item.dir == Null { return false; }
      if item.dst == Null { item.dst := item.src; }
      ok := RealiseNames(item);
      if !ok { return; }
      var path: Pointer;
      ok, path := PlaceFile(item.dst, item.dir);
      if !ok { return; }
      item.dst := path;
    }

    /** Virtual library names in source and destination give way to the real ones. */
    method RealiseNames(item: Item) returns (ok: bool)
      requires Valid() && item.src.Literal? && item.dst.Literal?
      modifies this`statics, item`src, item`dst
      ensures Valid()
      ensures var src, dst := RealName(host.env, host.fs, old(item.src.text)), RealName(host.env, host.fs, old(item.dst.text));
              && (ok <==> src.Some? && dst.Some?)
              && (ok ==> Deref(item.src) == src.value && Deref(item.dst) == dst.value)
      ensures item.src.Literal? || item.src == Static(CopySrcName)
      ensures item.dst != Null
    {
      var src, dst: Pointer;
      ok, src := Realise(item.src, CopySrcName);
      if !ok { return; }
      item.src := src;
      ok, dst := Realise(item.dst, CopyDstName);
      if !ok { return; }
      item.dst := dst;
    }

    /** The last component of a name, below the item's directory and the fake root. */
    method PlaceFile(p: Pointer, dir: Pointer) returns (ok: bool, q: Pointer)
      requires Valid() && p != Null && dir.Literal?
      modifies this`statics
      ensures Valid()
      ensures var name := ShortBasename(old(Deref(p)));
              && (ok <==> name.Some?)
              && (ok ==> q == Static(CopyDstTmp) && Deref(q) == RootedFile(host.env, dir.text, name.value))
      ensures statics[CopySrcName] == old(statics)[CopySrcName]
    {
      ok, q := TakeBaseName(p);
      if !ok { return; }
      q := Store(CopyDstTmp, RootedFile(host.env, Deref(dir), Deref(q)));
    }

    method TranslateCopyExecItem(item: Item) returns (ok: bool)
      requires Valid() && item.Fresh()
      modifies this`statics, item`src, item`dst
      ensures Valid()
      ensures var t := TranslateCopyExec(host.env, host.fs, old(item.Declared()));
              (ok <==> t.Some?) && (ok ==> Names(item, t.value))
    {
      ok := TranslateCopyItem(item);
      if !ok { return; }
      var srcText, dstText := Deref(item.src), Deref(item.dst);
      var src := Store(ExecSrcName, Format(srcText + host.env.execSuffix));
      var dst := Store(ExecDstName, Format(dstText + host.env.execSuffix));
      item.src := src;
      item.dst := dst;
    }

    /** The directory, moved below the fake root if there is one. */
    method RootDir(p: Pointer, buffer: Buffer) returns (q: Pointer)
      requires Valid() && p.Literal?
      modifies this`statics
      ensures Valid() && (q == p || q == Static(buffer))
      ensures Deref(q) == RootedDir(host.env, p.text)
      ensures forall b :: b != buffer ==> statics[b] == old(statics)[b]
    {
      q := p;
      if host.env.fakeRoot.Some? {
        q := Store(buffer, Format(host.env.fakeRoot.value + "/" + Deref(p)));
      }
    }

    method TranslateLinkItem(item: Item) returns (ok: bool)
      requires Valid() && item.Fresh()
      modifies this`statics, item`dir
      ensures Valid() && (item.dir == old(item.dir) || item.dir == Static(LinkDirName))
      ensures var t := TranslateLink(host.env, old(item.Declared()));
              (ok <==> t.Some?) && (ok ==> Names(item, t.value))
    {
      if item.src == Null { return false; }
      if item.dir == Null { return false; }
      if item.dst == Null { return false; }
      var dir := RootDir(item.dir, LinkDirName);
      item.dir := dir;
      ok := true;
    }

    /** The source of a library link survives the second call of base_name because it is copied away first. */
    method TranslateLiblinkItem(item: Item) returns (ok: bool)
      requires Valid() && item.Fresh()
      modifies this`statics, item`src, item`dst, item`dir
      ensures Valid()
      ensures var t := TranslateLiblink(host.env, host.fs, old(item.Declared()));
              (ok <==> t.Some?) && (ok ==> Names(item, t.value))
      ensures ok ==> item.dst == Static(LiblinkDstTmp)
      ensures ok ==> item.dir.Literal? || item.dir == Static(LiblinkDirName)
      ensures ok ==> item.src.Literal? || item.src == Static(LiblinkSrcName)
    {
      if item.src == Null { return false; }
      if item.dir == Null { return false; }
      if item.dst == Null { return false; }
      var dir := RootDir(item.dir, LiblinkDirName);
      item.dir := dir;
      var src, base: Pointer;
      ok, src := LinkText(item.src);
      if !ok { return; }
      item.src := src;
      ok, base := LinkName(item.dst);
      if !ok { return; }
      item.dst := base;
    }

    /** The destination half of ntran_liblink. */
    method LinkName(p: Pointer) returns (ok: bool, q: Pointer)
      requires Valid() && p.Literal?
      modifies this`statics
      ensures Valid()
      ensures var name := ShortBasename(p.text);
              && (ok <==> name.Some?)
              && (ok ==> q == Static(LiblinkDstTmp) && Deref(q) == Format(name.value + host.env.dlibSuffix))
      ensures forall b :: b != BaseNamePath && b != LiblinkDstTmp ==> statics[b] == old(statics)[b]
    {
      ok, q := TakeBaseName(p);
      if !ok { return; }
      q := Store(LiblinkDstTmp, Format(Deref(q) + host.env.dlibSuffix));
    }

    /** The source half of ntran_liblink. */
    method LinkText(p: Pointer) returns (ok: bool, q: Pointer)
      requires Valid() && p.Literal?
      modifies this`statics
      ensures Valid()
      ensures var text := LibraryLinkText(host.env, host.fs, p.text);
              && (ok <==> text.Some?)
              && (ok ==> (q.Literal? || q == Static(LiblinkSrcName)) && Deref(q) == text.value)
      ensures statics[LiblinkDirName] == old(statics)[LiblinkDirName]
    {
      var virtual := StrEnds(p.text, VIRTUAL_LIBRARY);
      if !virtual { return true, p; }
      var name := ReadName(p);
      if name.None? { return false, p; }
      q := Store(LiblinkSrcTmp, name.value);
      ok, q := TakeBaseName(q);
      if !ok { return; }
      q := Store(LiblinkSrcName, Deref(q));
    }

    method TranslateMkdirItem(item: Item) returns (ok: bool)
      requires Valid() && item.Fresh() && item.dir != Null
      modifies this`statics, item`dir, item`dst
      ensures Valid()
      ensures var t := TranslateMkdir(host.env, old(item.Declared()));
              ok && t.Some? && Names(item, t.value)
    {
      if item.dst == Null { item.dst := item.src; }
      var dir := RootDir(item.dir, MkdirDirName);
      item.dir := dir;
      ok := true;
    }

    /** ntran_chk_link and ntran_chk_liblink: the destination becomes the joined path. */
    method JoinLink(item: Item, buffer: Buffer)
      requires Valid() && item.dir != Null && item.src != Null && item.dst != Null
      requires item.dir != Static(buffer) && item.src != Static(buffer)
      modifies this`statics, item`dst
      ensures Valid() && item.dst != Null
      ensures Deref(item.src) == old(Deref(item.src)) && Deref(item.dir) == old(Deref(item.dir))
      ensures Deref(item.dst) == Format(old(Deref(item.dir)) + "/" + old(Deref(item.dst)))
    {
      var joined := Store(buffer, Format(Deref(item.dir) + "/" + Deref(item.dst)));
      item.dst := joined;
    }

    /** The translation column of the tables for installing and deinstalling. */
    method TranslateItem(item: Item) returns (ok: bool)
      requires Valid() && item.Fresh() && ItemOk(item.Declared())
      modifies this`statics, item
      ensures Valid()
      ensures var t := Translate(host.env, host.fs, old(item.Declared()));
              (ok <==> t.Some?) && (ok ==> Names(item, t.value))
    {
      match item.op
      case Copy => ok := TranslateCopyItem(item);
      case CopyExec => ok := TranslateCopyExecItem(item);
      case Symlink => ok := TranslateLinkItem(item);
      case Mkdir => ok := TranslateMkdirItem(item);
      case Liblink => ok := TranslateLiblinkItem(item);
    }

    /** The translation column of the table for checking: links end up with their joined path. */
    method TranslateForCheck(item: Item) returns (ok: bool)
      requires Valid() && item.Fresh() && ItemOk(item.Declared())
      modifies this`statics, item
      ensures Valid()
      ensures var t := Translate(host.env, host.fs, old(item.Declared()));
              && (ok <==> t.Some?)
              && (ok && !t.value.LinkTarget? ==> Names(item, t.value))
              && (ok && t.value.LinkTarget? ==>
                   && item.dst != Null && item.src != Null && Deref(item.src) == t.value.src
                   && Deref(item.dst) == Format(t.value.dir + "/" + t.value.dst))
    {
      match item.op
      case Copy => ok := TranslateCopyItem(item);
      case CopyExec => ok := TranslateCopyExecItem(item);
      case Symlink =>
        ok := TranslateLinkItem(item);
        if ok { JoinLink(item, ChkLinkDstName); }
      case Mkdir => ok := TranslateMkdirItem(item);
      case Liblink =>
        ok := TranslateLiblinkItem(item);
        if ok { JoinLink(item, ChkLiblinkDstName); }
    }
  }
}
