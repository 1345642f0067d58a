/**
 * The image canvases (magma/images.py): the bookkeeping of which images are
 * shown, pending to be shown and pending to be hidden, for the Ueberzug and the
 * Kitty back ends, and the framing of Kitty graphics-protocol commands.
 * The terminal writes are returned as strings of ASCII characters; the
 * Ueberzug process, base64 encoding, the editor's stdout pipe and the
 * asynchronous scheduling of Kitty's writes are not modelled.
 */
module Images {
  import opened Common
  import opened PyStr

  // ---------------------------------------------------------------------------
  // Ueberzug

  datatype Visibility = Invisible | Visible

  /** An Ueberzug placement; a new one starts invisible. */
  datatype Placement = Placement(x: int, y: int, width: int, height: int, path: string, visibility: Visibility)

  datatype UeberzugState = UeberzugState(
    placements: map<string, Placement>,
    visible: set<string>,
    toMakeVisible: set<string>,
    toMakeInvisible: set<string>)

  /** Every identifier in the three sets has a placement, so present never misses a key. */
  predicate UeberzugInv(s: UeberzugState)
  {
    s.visible <= s.placements.Keys && s.toMakeVisible <= s.placements.Keys
    && s.toMakeInvisible <= s.placements.Keys
  }

  /** The placement identifier: the checksum extended with the process id and the geometry. */
  function UeberzugKey(identifier: string, pid: int, x: int, y: int, width: int, height: int): string
  {
    identifier + "-" + IntToString(pid) + "-" + IntToString(x) + "-" + IntToString(y)
    + "-" + IntToString(width) + "-" + IntToString(height)
  }

  /** UeberzugCanvas.add_image */
  function UeberzugAdd(s: UeberzugState, pid: int, path: string, identifier: string,
                       x: int, y: int, width: int, height: int): UeberzugState
  {
    if width > 0 && height > 0 then
      var key := UeberzugKey(identifier, pid, x, y, width, height);
      var p := if key in s.placements then s.placements[key] else Placement(x, y, width, height, path, Invisible);
      s.(placements := s.placements[key := p.(path := path)], toMakeVisible := s.toMakeVisible + {key})
    else s
  }

  /** A placement made visible, made invisible, or left as it is. */
  function Shown(p: Placement, toShow: bool, toHide: bool): Placement
  {
    if toShow then p.(visibility := Visible) else if toHide then p.(visibility := Invisible) else p
  }

  /** The placements with those of `ids` given the visibility `v`. */
  function Marked(placements: map<string, Placement>, ids: set<string>, v: Visibility): (m: map<string, Placement>)
    ensures m.Keys == placements.Keys
  {
    map k | k in placements :: if k in ids then placements[k].(visibility := v) else placements[k]
  }

  /** UeberzugCanvas.present: hide what is pending hide only, show what is pending show. */
  function UeberzugPresent(s: UeberzugState): UeberzugState
  {
    var toHide := s.toMakeInvisible - s.toMakeVisible;
    var placements := map k | k in s.placements :: Shown(s.placements[k], k in s.toMakeVisible, k in toHide);
    UeberzugState(placements, s.visible + s.toMakeVisible, {}, {})
  }

  /** UeberzugCanvas.clear */
  function UeberzugClear(s: UeberzugState): UeberzugState
  {
    s.(toMakeInvisible := s.toMakeInvisible + s.visible, visible := {})
  }

  /** The three operations keep every pending or visible identifier backed by a placement. */
  lemma UeberzugInvPreserved(s: UeberzugState, pid: int, path: string, identifier: string,
                             x: int, y: int, width: int, height: int)
    requires UeberzugInv(s)
    ensures UeberzugInv(UeberzugAdd(s, pid, path, identifier, x, y, width, height))
    ensures UeberzugInv(UeberzugPresent(s))
    ensures UeberzugInv(UeberzugClear(s))
  {
  }

  /** After present nothing is pending, visible has gained what was pending show,
      an identifier pending both show and hide is visible, and one pending hide
      only is hidden. */
  lemma UeberzugPresentSemantics(s: UeberzugState, k: string)
    requires k in s.placements
    ensures var t := UeberzugPresent(s);
            t.toMakeVisible == {} && t.toMakeInvisible == {} && t.visible == s.visible + s.toMakeVisible
            && t.placements.Keys == s.placements.Keys
            && (k in s.toMakeVisible ==> t.placements[k].visibility == Visible)
            && (k in s.toMakeInvisible && k !in s.toMakeVisible ==> t.placements[k].visibility == Invisible)
            && (k !in s.toMakeVisible && k !in s.toMakeInvisible ==> t.placements[k] == s.placements[k])
  {
  }

  /** Presenting twice is presenting once. */
  lemma UeberzugPresentIdempotent(s: UeberzugState)
    ensures UeberzugPresent(UeberzugPresent(s)) == UeberzugPresent(s)
  {
    var t := UeberzugPresent(s);
    assert UeberzugPresent(t).placements == t.placements;
  }

  /** An image of zero width or height is not added at all. */
  lemma UeberzugIgnoresEmpty(s: UeberzugState, pid: int, path: string, identifier: string,
                             x: int, y: int, width: int, height: int)
    requires width <= 0 || height <= 0
    ensures UeberzugAdd(s, pid, path, identifier, x, y, width, height) == s
  {
  }

  /** Clearing and presenting hides every visible image that was not added again. */
  lemma UeberzugClearThenPresent(s: UeberzugState, k: string)
    requires UeberzugInv(s) && k in s.visible && k !in s.toMakeVisible
    ensures var t := UeberzugPresent(UeberzugClear(s));
            k in t.placements && t.placements[k].visibility == Invisible && k !in t.visible
  {
  }

  /** The Ueberzug canvas: the placements by identifier and the three sets. */
  class UeberzugCanvas {
    var placements: map<string, Placement>
    var visible: set<string>
    var toMakeVisible: set<string>
    var toMakeInvisible: set<string>
    const pid: int

    function State(): UeberzugState
      reads this
    {
      UeberzugState(placements, visible, toMakeVisible, toMakeInvisible)
    }

    ghost predicate Valid()
      reads this
    {
      UeberzugInv(State())
    }

    /** UeberzugCanvas.__init__, in the process `pid`. */
    constructor (pid: int)
      ensures Valid() && State() == UeberzugState(map[], {}, {}, {}) && this.pid == pid
    {
      placements := map[];
      visible := {};
      toMakeVisible := {};
      toMakeInvisible := {};
      this.pid := pid;
    }

    method AddImage(path: string, identifier: string, x: int, y: int, width: int, height: int)
      requires Valid()
      modifies this
      ensures Valid() && State() == UeberzugAdd(old(State()), pid, path, identifier, x, y, width, height)
    {
      if width > 0 && height > 0 {
        var key := UeberzugKey(identifier, pid, x, y, width, height);
        var img: Placement;
        if key in placements {
          img := placements[key];
        } else {
          img := Placement(x, y, width, height, path, Invisible);
        }
        placements := placements[key := img.(path := path)];
        toMakeVisible := toMakeVisible + {key};
      }
    }

    method Clear()
      requires Valid()
      modifies this
      ensures Valid() && State() == UeberzugClear(old(State()))
    {
      toMakeInvisible := toMakeInvisible + visible;
      visible := {};
    }

    method Present()
      requires Valid()
      modifies this
      ensures Valid() && State() == UeberzugPresent(old(State()))
    {
      ghost var s := State();
      toMakeInvisible := toMakeInvisible - toMakeVisible;
      Hide(toMakeInvisible);
      Show(toMakeVisible);
      toMakeInvisible := {};
      toMakeVisible := {};
      assert placements == UeberzugPresent(s).placements;
    }

    /** The first loop of present: each of `ids` made invisible. */
    method Hide(ids: set<string>)
      requires ids <= placements.Keys
      modifies this
      ensures placements == Marked(old(placements), ids, Invisible)
      ensures visible == old(visible) && toMakeVisible == old(toMakeVisible) && toMakeInvisible == old(toMakeInvisible)
    {
      var pending := ids;
      while pending != {}
        invariant pending <= ids
        invariant placements == Marked(old(placements), ids - pending, Invisible)
        invariant visible == old(visible) && toMakeVisible == old(toMakeVisible) && toMakeInvisible == old(toMakeInvisible)
        decreases pending
      {
        var id :| id in pending;
        placements := placements[id := placements[id].(visibility := Invisible)];
        pending := pending - {id};
      }
    }

    /** The second loop of present: each of `ids` made visible and recorded as visible. */
    method Show(ids: set<string>)
      requires ids <= placements.Keys
      modifies this
      ensures placements == Marked(old(placements), ids, Visible) && visible == old(visible) + ids
      ensures toMakeVisible == old(toMakeVisible) && toMakeInvisible == old(toMakeInvisible)
    {
      var pending := ids;
      while pending != {}
        invariant pending <= ids
        invariant placements == Marked(old(placements), ids - pending, Visible) && visible == old(visible) + (ids - pending)
        invariant toMakeVisible == old(toMakeVisible) && toMakeInvisible == old(toMakeInvisible)
        decreases pending
      {
        var id :| id in pending;
        placements := placements[id := placements[id].(visibility := Visible)];
        visible := visible + {id};
        pending := pending - {id};
      }
    }
  }

  // ---------------------------------------------------------------------------
  // Kitty

  /** A Kitty image: its protocol id, file and cell geometry. */
  datatype KittyImage = KittyImage(id: nat, path: string, row: int, col: int, width: int, height: int)

  datatype KittyState = KittyState(
    images: map<string, KittyImage>,
    nextId: nat,
    visible: set<string>,
    toMakeVisible: set<string>,
    toMakeInvisible: set<string>)

  /** Ids are allocated densely from 0: next_id is the number of images, ids are
      below it and distinct, and the three sets name known images. */
  predicate KittyInv(s: KittyState)
  {
    s.nextId == |s.images|
    && (forall k :: k in s.images ==> s.images[k].id < s.nextId)
    && (forall a, b :: a in s.images && b in s.images && a != b ==> s.images[a].id != s.images[b].id)
    && s.visible <= s.images.Keys && s.toMakeVisible <= s.images.Keys && s.toMakeInvisible <= s.images.Keys
  }

  /** Kitty.add_image: a new identifier gets the next id; a known one only its new path. */
  function KittyAdd(s: KittyState, path: string, identifier: string, x: int, y: int, width: int, height: int): KittyState
  {
    if identifier !in s.images then
      s.(images := s.images[identifier := KittyImage(s.nextId, path, y, x, width, height)],
         nextId := s.nextId + 1, toMakeVisible := s.toMakeVisible + {identifier})
    else
      s.(images := s.images[identifier := s.images[identifier].(path := path)],
         toMakeVisible := s.toMakeVisible + {identifier})
  }

  /** What Kitty.present schedules: the images to hide and the images to show. */
  datatype KittyPresented = KittyPresented(state: KittyState, toHide: set<string>, toShow: set<string>)

  /** Kitty.present: images pending both show and hide are neither hidden nor sent again. */
  function KittyPresent(s: KittyState): KittyPresented
  {
    var toShow := s.toMakeVisible - (s.toMakeVisible * s.toMakeInvisible);
    var toHide := s.toMakeInvisible - s.toMakeVisible;
    KittyPresented(s.(visible := s.visible + s.toMakeVisible, toMakeVisible := {}, toMakeInvisible := {}), toHide, toShow)
  }

  /** Kitty.clear */
  function KittyClear(s: KittyState): KittyState
  {
    s.(toMakeInvisible := s.toMakeInvisible + s.visible, visible := {})
  }

  /** Adding keeps the id allocation dense and distinct. */
  lemma KittyAddPreserves(s: KittyState, path: string, identifier: string, x: int, y: int, width: int, height: int)
    requires KittyInv(s)
    ensures KittyInv(KittyAdd(s, path, identifier, x, y, width, height))
  {
    if identifier !in s.images {
      assert |s.images[identifier := KittyImage(s.nextId, path, y, x, width, height)]| == |s.images| + 1;
    }
  }

  /** Presenting and clearing keep the invariant. */
  lemma KittyPresentClearPreserve(s: KittyState)
    requires KittyInv(s)
    ensures KittyInv(KittyPresent(s).state) && KittyInv(KittyClear(s))
  {
  }

  /** A new identifier gets id next_id; a known one keeps its id and geometry and
      takes only the new path. */
  lemma KittyAddIds(s: KittyState, path: string, identifier: string, x: int, y: int, width: int, height: int)
    ensures var t := KittyAdd(s, path, identifier, x, y, width, height);
            identifier in t.images && t.images[identifier].path == path
            && (identifier !in s.images ==> t.images[identifier].id == s.nextId && t.nextId == s.nextId + 1)
            && (identifier in s.images ==> t.images[identifier] == s.images[identifier].(path := path) && t.nextId == s.nextId)
            && (forall k :: k in s.images && k != identifier ==> k in t.images && t.images[k] == s.images[k])
  {
  }

  /** After present nothing is pending and visible has gained what was pending show;
      the scheduled hides and shows are disjoint and leave out what was pending both. */
  lemma KittyPresentSemantics(s: KittyState)
    ensures var p := KittyPresent(s);
            p.state.toMakeVisible == {} && p.state.toMakeInvisible == {}
            && p.state.visible == s.visible + s.toMakeVisible && p.state.images == s.images
            && p.toHide * p.toShow == {}
            && (forall k :: k in p.toShow <==> k in s.toMakeVisible && k !in s.toMakeInvisible)
            && (forall k :: k in p.toHide <==> k in s.toMakeInvisible && k !in s.toMakeVisible)
  {
  }

  /** The Kitty canvas. */
  class KittyCanvas {
    var images: map<string, KittyImage>
    var nextId: nat
    var visible: set<string>
    var toMakeVisible: set<string>
    var toMakeInvisible: set<string>

    function State(): KittyState
      reads this
    {
      KittyState(images, nextId, visible, toMakeVisible, toMakeInvisible)
    }

    ghost predicate Valid()
      reads this
    {
      KittyInv(State())
    }

    /** Kitty.__init__; the editor's stdout pipe it opens is not modelled. */
    constructor ()
      ensures Valid() && State() == KittyState(map[], 0, {}, {}, {})
    {
      images := map[];
      nextId := 0;
      visible := {};
      toMakeVisible := {};
      toMakeInvisible := {};
    }

    method AddImage(path: string, identifier: string, x: int, y: int, width: int, height: int)
      requires Valid()
      modifies this
      ensures Valid() && State() == KittyAdd(old(State()), path, identifier, x, y, width, height)
    {
      KittyAddPreserves(State(), path, identifier, x, y, width, height);
      if identifier !in images {
        images := images[identifier := KittyImage(nextId, path, y, x, width, height)];
        nextId := nextId + 1;
      } else {
        images := images[identifier := images[identifier].(path := path)];
      }
      toMakeVisible := toMakeVisible + {identifier};
    }

    method Clear()
      requires Valid()
      modifies this
      ensures Valid() && State() == KittyClear(old(State()))
    {
      toMakeInvisible := toMakeInvisible + visible;
      visible := {};
    }

    /** Returns the images whose hide and show writes are scheduled. */
    method Present() returns (toHide: set<KittyImage>, toShow: set<KittyImage>)
      requires Valid()
      modifies this
      ensures Valid() && State() == KittyPresent(old(State())).state
      ensures toHide == set k | k in KittyPresent(old(State())).toHide :: old(images)[k]
      ensures toShow == set k | k in KittyPresent(old(State())).toShow :: old(images)[k]
    {
      var toWorkOn := toMakeVisible - (toMakeVisible * toMakeInvisible);
      toMakeInvisible := toMakeInvisible - toMakeVisible;
      toHide := set k | k in toMakeInvisible :: images[k];
      toShow := set k | k in toWorkOn :: images[k];
      visible := visible + toMakeVisible;
      toMakeInvisible := {};
      toMakeVisible := {};
    }
  }

  // ---------------------------------------------------------------------------
  // The Kitty graphics protocol

  /** "k=v" for each control key, in order. */
  function KeyValues(cmd: seq<(string, string)>): (r: seq<string>)
    ensures |r| == |cmd|
  {
    seq(|cmd|, i requires 0 <= i < |cmd| => cmd[i].0 + "=" + cmd[i].1)
  }

  /** An APC graphics command: ESC _G, the control keys, the payload after ';' when
      there is one, ESC \. */
  function GrCommand(cmd: seq<(string, string)>, payload: string): string
  {
    [ESC] + "_G" + Join(",", KeyValues(cmd)) + (if |payload| > 0 then ";" + payload else "") + [ESC] + "\\"
  }

  /** KittyImage.serialize_gr_command: inside tmux, the command is passed through
      with every ESC doubled. */
  function SerializeGrCommand(cmd: seq<(string, string)>, payload: string, insideTmux: bool): string
  {
    var plain := GrCommand(cmd, payload);
    if insideTmux then [ESC] + "Ptmux;" + Replace(plain, [ESC], [ESC, ESC]) + [ESC] + "\\" else plain
  }

  /** tmux's undoing of the doubling: each ESC ESC becomes one ESC. */
  function UndoubleEsc(s: string): string
    decreases |s|
  {
    if |s| == 0 then ""
    else if |s| >= 2 && s[0] == ESC && s[1] == ESC then [ESC] + UndoubleEsc(s[2..])
    else [s[0]] + UndoubleEsc(s[1..])
  }

  /** Doubling every ESC is undone by tmux. */
  lemma {:induction false} UndoubleDoubled(s: string)
    ensures UndoubleEsc(Replace(s, [ESC], [ESC, ESC])) == s
    decreases |s|
  {
    if |s| > 0 {
      UndoubleDoubled(s[1..]);
      var rest := Replace(s[1..], [ESC], [ESC, ESC]);
      if [ESC] <= s {
        assert s[0] == ESC;
        assert Replace(s, [ESC], [ESC, ESC]) == [ESC, ESC] + rest;
        assert ([ESC, ESC] + rest)[2..] == rest;
      } else {
        assert s[0] != ESC;
        assert Replace(s, [ESC], [ESC, ESC]) == [s[0]] + rest;
        assert ([s[0]] + rest)[1..] == rest;
      }
      assert [s[0]] + s[1..] == s;
    }
  }

  /** The passthrough form: with its tmux framing removed and the escapes undoubled,
      the plain command comes back. */
  lemma TmuxRoundTrip(cmd: seq<(string, string)>, payload: string)
    ensures var t := SerializeGrCommand(cmd, payload, true);
            |t| >= 9 && t[..7] == [ESC] + "Ptmux;" && t[|t| - 2..] == [ESC] + "\\"
            && UndoubleEsc(t[7..|t| - 2]) == SerializeGrCommand(cmd, payload, false)
  {
    var plain := GrCommand(cmd, payload);
    var d := Replace(plain, [ESC], [ESC, ESC]);
    var t := [ESC] + "Ptmux;" + d + [ESC] + "\\";
    assert t[7..|t| - 2] == d;
    UndoubleDoubled(plain);
  }

  /** The piece size of write_chunked. */
  const PieceSize: nat := 4096

  /** data cut into pieces of PieceSize characters, the last one shorter. */
  function Pieces(data: string): (r: seq<string>)
    ensures |r| == (|data| + PieceSize - 1) / PieceSize
    ensures forall i :: 0 <= i < |r| ==> 0 < |r[i]| <= PieceSize
    decreases |data|
  {
    if |data| == 0 then []
    else if |data| <= PieceSize then [data]
    else [data[..PieceSize]] + Pieces(data[PieceSize..])
  }

  /** The concatenation of strings. */
  function Concat(parts: seq<string>): string
    decreases |parts|
  {
    if |parts| == 0 then "" else parts[0] + Concat(parts[1..])
  }

  /** The pieces put back together are the data, and every piece but the last is full. */
  lemma {:induction false} PiecesConcat(data: string)
    ensures Concat(Pieces(data)) == data
    ensures forall i :: 0 <= i < |Pieces(data)| - 1 ==> |Pieces(data)[i]| == PieceSize
    decreases |data|
  {
    if |data| > PieceSize {
      PiecesConcat(data[PieceSize..]);
      assert data[..PieceSize] + data[PieceSize..] == data;
      var r := Pieces(data);
      assert r[1..] == Pieces(data[PieceSize..]);
    } else if |data| > 0 {
      assert Pieces(data) == [data];
    }
  }

  /** The m flag: 1 while more pieces follow, 0 on the last. */
  function MoreFlag(more: bool): string
  {
    if more then "1" else "0"
  }

  /** KittyImage.write_chunked on encoded data: one serialized command per piece,
      each with its m flag first, the other control keys with the first piece only. */
  function ChunkedWrites(cmd: seq<(string, string)>, data: string, insideTmux: bool): (r: seq<string>)
    ensures |r| == |Pieces(data)|
  {
    var pieces := Pieces(data);
    seq(|pieces|, i requires 0 <= i < |pieces| =>
      SerializeGrCommand([("m", MoreFlag(i + 1 < |pieces|))] + (if i == 0 then cmd else []), pieces[i], insideTmux))
  }

  /** write_chunked: the loop that consumes the data 4096 characters at a time.
      The keywords `m` and `payload` are its own, so the caller may not pass them. */
  method WriteChunked(cmd: seq<(string, string)>, data: string, insideTmux: bool) returns (writes: seq<string>)
    requires forall k :: 0 <= k < |cmd| ==> cmd[k].0 != "m" && cmd[k].0 != "payload"
    ensures writes == ChunkedWrites(cmd, data, insideTmux)
  {
    var all := Pieces(data);
    var rest := data;
    var keys := cmd;
    writes := [];
    var i := 0;
    while |rest| > 0
      invariant 0 <= i <= |all| && Pieces(rest) == all[i..]
      invariant keys == if i == 0 then cmd else []
      invariant writes == ChunkedWrites(cmd, data, insideTmux)[..i]
      decreases |rest|
    {
      var piece := if |rest| <= PieceSize then rest else rest[..PieceSize];
      rest := if |rest| <= PieceSize then "" else rest[PieceSize..];
      assert all[i] == piece && Pieces(rest) == all[i + 1..];
      var m := if |rest| > 0 then "1" else "0";
      writes := writes + [SerializeGrCommand([("m", m)] + keys, piece, insideTmux)];
      keys := [];
      i := i + 1;
    }
    assert i == |all|;
  }

  /** Empty data writes nothing; otherwise only the last write says m=0. */
  lemma ChunkedFlags(cmd: seq<(string, string)>, data: string, insideTmux: bool)
    ensures |data| == 0 <==> ChunkedWrites(cmd, data, insideTmux) == []
    ensures var pieces := Pieces(data);
            forall i :: 0 <= i < |pieces| ==>
              ChunkedWrites(cmd, data, insideTmux)[i]
              == SerializeGrCommand([("m", if i == |pieces| - 1 then "0" else "1")] + (if i == 0 then cmd else []),
                                    pieces[i], insideTmux)
  {
  }

  /** The control keys of KittyImage.show: transmit and display a PNG of the image's
      size in cells, without moving the cursor, above the text, quietly. */
  function ShowCommand(img: KittyImage): seq<(string, string)>
  {
    [("a", "T"), ("i", NatToString(img.id)), ("f", "100"), ("v", IntToString(img.height)),
     ("s", IntToString(img.width)), ("C", "1"), ("z", "10"), ("q", "2")]
  }

  /** KittyImage.show, given the base64 encoding of the file's contents. */
  function ShowWrites(img: KittyImage, encoded: string, insideTmux: bool): seq<string>
  {
    ChunkedWrites(ShowCommand(img), encoded, insideTmux)
  }

  /** KittyImage.hide: delete the image by its id. */
  function HideWrite(img: KittyImage, insideTmux: bool): string
  {
    SerializeGrCommand([("i", NatToString(img.id)), ("a", "d"), ("q", "2")], "", insideTmux)
  }

  /** A hide command outside tmux carries no payload separator. */
  lemma HideWriteFrame(img: KittyImage)
    ensures HideWrite(img, false) == [ESC] + "_Gi=" + NatToString(img.id) + ",a=d,q=2" + [ESC] + "\\"
  {
    var kv := KeyValues([("i", NatToString(img.id)), ("a", "d"), ("q", "2")]);
    assert kv[0] == "i=" + NatToString(img.id) && kv[1] == "a=d" && kv[2] == "q=2";
    assert kv == ["i=" + NatToString(img.id), "a=d", "q=2"];
    assert Join(",", kv) == "i=" + NatToString(img.id) + "," + Join(",", ["a=d", "q=2"]);
    assert kv[1..] == ["a=d", "q=2"];
    assert Join(",", ["a=d", "q=2"]) == "a=d" + "," + Join(",", ["q=2"]);
  }

  /** Showing an image whose encoding fits one piece writes one command with m=0 and
      all the control keys. */
  lemma ShowSmallImage(img: KittyImage, encoded: string, insideTmux: bool)
    requires 0 < |encoded| <= PieceSize
    ensures ShowWrites(img, encoded, insideTmux)
            == [SerializeGrCommand([("m", "0")] + ShowCommand(img), encoded, insideTmux)]
  {
    assert Pieces(encoded) == [encoded];
  }

  // ---------------------------------------------------------------------------
  // The canvas in use

  datatype Canvas = NoCanvas | Ueberzug(u: UeberzugCanvas) | Kitty(k: KittyCanvas)
  {
    function Repr(): set<object>
    {
      match this
      case NoCanvas => {}
      case Ueberzug(u) => {u}
      case Kitty(k) => {k}
    }

    ghost predicate Valid()
      reads Repr()
    {
      match this
      case NoCanvas => true
      case Ueberzug(u) => u.Valid()
      case Kitty(k) => k.Valid()
    }

    function State(): CanvasState
      reads Repr()
    {
      match this
      case NoCanvas => NoState
      case Ueberzug(u) => UeberzugCanvasState(u.State())
      case Kitty(k) => KittyCanvasState(k.State())
    }
  }

  datatype CanvasState = NoState | UeberzugCanvasState(u: UeberzugState) | KittyCanvasState(k: KittyState)

  /** canvas.add_image on the state of whichever canvas is in use; NoCanvas ignores it. */
  function CanvasAdd(s: CanvasState, pid: int, path: string, identifier: string,
                     x: int, y: int, width: int, height: int): CanvasState
  {
    match s
    case NoState => NoState
    case UeberzugCanvasState(u) => UeberzugCanvasState(UeberzugAdd(u, pid, path, identifier, x, y, width, height))
    case KittyCanvasState(k) => KittyCanvasState(KittyAdd(k, path, identifier, x, y, width, height))
  }

  /** canvas.clear */
  function CanvasClear(s: CanvasState): CanvasState
  {
    match s
    case NoState => NoState
    case UeberzugCanvasState(u) => UeberzugCanvasState(UeberzugClear(u))
    case KittyCanvasState(k) => KittyCanvasState(KittyClear(k))
  }

  /** canvas.present */
  function CanvasPresent(s: CanvasState): CanvasState
  {
    match s
    case NoState => NoState
    case UeberzugCanvasState(u) => UeberzugCanvasState(UeberzugPresent(u))
    case KittyCanvasState(k) => KittyCanvasState(KittyPresent(k).state)
  }

  /** Every NoCanvas operation does nothing. */
  lemma NoCanvasInert(pid: int, path: string, identifier: string, x: int, y: int, width: int, height: int)
    ensures CanvasAdd(NoState, pid, path, identifier, x, y, width, height) == NoState
    ensures CanvasClear(NoState) == NoState && CanvasPresent(NoState) == NoState
  {
  }

  method AddImage(c: Canvas, path: string, identifier: string, x: int, y: int, width: int, height: int)
    requires c.Valid()
    modifies c.Repr()
    ensures c.Valid()
    ensures c.State() == CanvasAdd(old(c.State()), if c.Ueberzug? then c.u.pid else 0, path, identifier, x, y, width, height)
  {
    match c
    case NoCanvas =>
    case Ueberzug(u) => u.AddImage(path, identifier, x, y, width, height);
    case Kitty(k) => k.AddImage(path, identifier, x, y, width, height);
  }

  method Clear(c: Canvas)
    requires c.Valid()
    modifies c.Repr()
    ensures c.Valid() && c.State() == CanvasClear(old(c.State()))
  {
    match c
    case NoCanvas =>
    case Ueberzug(u) => u.Clear();
    case Kitty(k) => k.Clear();
  }

  method Present(c: Canvas)
    requires c.Valid()
    modifies c.Repr()
    ensures c.Valid() && c.State() == CanvasPresent(old(c.State()))
  {
    match c
    case NoCanvas =>
    case Ueberzug(u) => u.Present();
    case Kitty(k) => var _, _ := k.Present();
  }

  /** The provider for a name, or the error for an unknown one. */
  function ProviderOutcome(name: string): (r: Result<CanvasState>)
    ensures r.Ok? <==> name in {"none", "ueberzug", "kitty"}
    ensures r.Err? ==> r.error == MagmaException("Unknown image provider: '" + name + "'")
  {
    if name == "none" then Ok(NoState)
    else if name == "ueberzug" then Ok(UeberzugCanvasState(UeberzugState(map[], {}, {}, {})))
    else if name == "kitty" then Ok(KittyCanvasState(KittyState(map[], 0, {}, {}, {})))
    else Err(MagmaException("Unknown image provider: '" + name + "'"))
  }

  /** get_canvas_given_provider, in process `pid`. */
  method GetCanvasGivenProvider(name: string, pid: int) returns (r: Result<Canvas>)
    ensures r.Ok? ==> r.value.Valid() && fresh(r.value.Repr())
    ensures ProviderOutcome(name).Ok? <==> r.Ok?
    ensures r.Ok? ==> r.value.State() == ProviderOutcome(name).value
    ensures r.Err? ==> r.error == ProviderOutcome(name).error
  {
    if name == "none" {
      r := Ok(NoCanvas);
    } else if name == "ueberzug" {
      var u := new UeberzugCanvas(pid);
      r := Ok(Ueberzug(u));
    } else if name == "kitty" {
      var k := new KittyCanvas();
      r := Ok(Kitty(k));
    } else {
      r := Err(MagmaException("Unknown image provider: '" + name + "'"));
    }
  }
}
