// The cursor-image cache of the Gonk widget's GL cursor: which cursors
// are supported, which images are decoded or being loaded, and whether
// the cursor is to be drawn.

module GLCursor {
  import opened Wrappers

  /** The cursors of nsCursor this cache knows by name; `Other` is any
      remaining one. */
  datatype Cursor =
    | Standard | Wait | Select | Hyperlink | VerticalText | Spinning | Crosshair
    | NoCursor
    | Other(id: nat)

  /** The seven cursors that have an image of their own. */
  predicate Supported(c: Cursor)
  {
    c in {Standard, Wait, Select, Hyperlink, VerticalText, Spinning, Crosshair}
  }

  /** MapCursorState: a supported cursor is itself, any other the standard one. */
  function MapCursorState(c: Cursor): (r: Cursor)
    ensures Supported(r)
    ensures Supported(c) ==> r == c
    ensures !Supported(c) ==> r == Standard
  {
    match c
    case Standard => c
    case Wait => c
    case Select => c
    case Hyperlink => c
    case VerticalText => c
    case Spinning => c
    case Crosshair => c
    case _ => Standard
  }

  lemma MapCursorStateIdempotent(c: Cursor)
    ensures MapCursorState(MapCursorState(c)) == MapCursorState(c)
  {
  }

  /** GetCursorElementClassID: the style class of a cursor's image element. */
  function CursorClassId(c: Cursor): (r: string)
    ensures !Supported(c) ==> r == "std"
    ensures c == Hyperlink ==> r == "link"
  {
    match c
    case Standard => "std"
    case Wait => "wait"
    case Select => "select"
    case Hyperlink => "link"
    case VerticalText => "vertical_text"
    case Spinning => "spinning"
    case Crosshair => "crosshair"
    case _ => "std"
  }

  /** Every cursor gets the class of the cursor it maps to, and the
      supported cursors' classes tell them apart. */
  lemma ClassIdsFollowMapping(c: Cursor, d: Cursor)
    ensures CursorClassId(c) == CursorClassId(MapCursorState(c))
    ensures Supported(c) && Supported(d) && CursorClassId(c) == CursorClassId(d) ==> c == d
  {
  }

  datatype Point = Point(x: int, y: int)

  /** kOffscreenCursorPosition */
  const OffscreenCursorPosition := Point(-1, -1)

  /** A decoded cursor image. */
  datatype GLCursorImage = GLCursorImage(cursor: Cursor, width: int, height: int, hotspot: Point, surface: nat)

  /** A pending load: its task's cursor and hotspot. */
  datatype LoadRequest = LoadRequest(cursor: Cursor, hotspot: Point)

  class GLCursorImageManager {
    /** mGLCursorImageMap */
    var images: map<Cursor, GLCursorImage>
    /** mGLCursorLoadingRequestMap */
    var loading: map<Cursor, LoadRequest>
    var hasSetCursor: bool
    var position: Point

    constructor ()
      ensures images == map[] && loading == map[]
      ensures !hasSetCursor && position == OffscreenCursorPosition
    {
      images := map[];
      loading := map[];
      hasSetCursor := false;
      position := OffscreenCursorPosition;
    }

    /** IsCursorImageReady */
    function IsCursorImageReady(c: Cursor): (r: bool)
      reads this
      ensures r <==> c != NoCursor && MapCursorState(c) in images
    {
      if c == NoCursor then false else MapCursorState(c) in images
    }

    /** IsCursorImageLoading */
    function IsCursorImageLoading(c: Cursor): (r: bool)
      reads this
      ensures r <==> MapCursorState(c) in loading
    {
      MapCursorState(c) in loading
    }

    /** GetGLCursorImage: the image of the mapped cursor, or the empty image
        (None) while it is not ready. */
    function GetGLCursorImage(c: Cursor): (r: Option<GLCursorImage>)
      reads this
      ensures r.None? <==> MapCursorState(c) !in images
      ensures r.Some? ==> r.value == images[MapCursorState(c)]
    {
      var supported := MapCursorState(c);
      if !IsCursorImageReady(supported) then None else Some(images[supported])
    }

    /** NotifyCursorImageLoadDone: std::map::insert, which keeps an image
        already there. */
    method NotifyCursorImageLoadDone(c: Cursor, image: GLCursorImage)
      modifies this`images
      ensures images == if c in old(images) then old(images) else old(images)[c := image]
    {
      if c !in images {
        images := images[c := image];
      }
    }

    /** When PrepareCursorImage starts no load. */
    predicate PrepareSkips(c: Cursor, hasWindow: bool, documentReady: bool)
      reads this
    {
      c == NoCursor || !hasWindow || IsCursorImageReady(MapCursorState(c)) ||
      IsCursorImageLoading(c) || !documentReady
    }

    /** PrepareCursorImage, with `hasWindow` for a non-null window and
        `documentReady` for a pres shell with a document in which the
        anonymous content could be inserted; `hotspot` is the one css
        gives the image. Nothing is done for no cursor, a missing window,
        or a mapped cursor that is ready or loading. */
    method PrepareCursorImage(c: Cursor, hasWindow: bool, documentReady: bool, hotspot: Point)
      modifies this`loading
      ensures old(PrepareSkips(c, hasWindow, documentReady)) ==> loading == old(loading)
      ensures !old(PrepareSkips(c, hasWindow, documentReady)) ==>
        loading == old(loading)[MapCursorState(c) := LoadRequest(MapCursorState(c), hotspot)]
    {
      if c == NoCursor {
        return;
      }
      var supported := MapCursorState(c);
      if !hasWindow || IsCursorImageReady(supported) || IsCursorImageLoading(supported) {
        return;
      }
      if documentReady {
        loading := loading[supported := LoadRequest(supported, hotspot)];
      }
    }

    /** RemoveCursorLoadRequest: the request is cancelled (it must be there:
        its image request is dereferenced) and erased. */
    method RemoveCursorLoadRequest(c: Cursor)
      requires c in loading
      modifies this`loading
      ensures loading == old(loading) - {c}
    {
      loading := loading - {c};
    }

    /** LoadCursorTask::Notify for a DECODE_COMPLETE notification followed
        by the main-thread removal it dispatches; other notifications do
        nothing. */
    method LoadFinished(task: LoadRequest, decodeComplete: bool, width: int, height: int, surface: nat)
      requires decodeComplete ==> task.cursor in loading
      modifies this`images, this`loading
      ensures !decodeComplete ==> images == old(images) && loading == old(loading)
      ensures decodeComplete ==> loading == old(loading) - {task.cursor}
      ensures decodeComplete ==> task.cursor in images
      ensures decodeComplete && task.cursor !in old(images) ==>
        images == old(images)[task.cursor := GLCursorImage(task.cursor, width, height, task.hotspot, surface)]
      ensures decodeComplete && task.cursor in old(images) ==> images == old(images)
    {
      if !decodeComplete {
        return;
      }
      NotifyCursorImageLoadDone(task.cursor, GLCursorImage(task.cursor, width, height, task.hotspot, surface));
      RemoveCursorLoadRequest(task.cursor);
    }

    /** HasSetCursor */
    method HasSetCursor()
      modifies this`hasSetCursor
      ensures hasSetCursor
    {
      hasSetCursor := true;
    }

    /** SetGLCursorPosition */
    method SetGLCursorPosition(p: Point)
      modifies this`position
      ensures position == p
    {
      position := p;
    }

    /** GetGLCursorPosition */
    function GetGLCursorPosition(): (r: Point)
      reads this
      ensures r == position
    {
      position
    }

    /** ShouldDrawGLCursor */
    function ShouldDrawGLCursor(): (r: bool)
      reads this
      ensures r <==> hasSetCursor && position != Point(-1, -1)
    {
      hasSetCursor && position != OffscreenCursorPosition
    }
  }

  /** A new manager draws nothing until a cursor is set and placed on screen. */
  method DrawingNeedsCursorAndPosition(p: Point) returns (before: bool, after: bool)
    ensures !before
    ensures after <==> p != OffscreenCursorPosition
  {
    var m := new GLCursorImageManager();
    before := m.ShouldDrawGLCursor();
    m.HasSetCursor();
    m.SetGLCursorPosition(p);
    after := m.ShouldDrawGLCursor();
  }

  /** A new manager reports the offscreen position, and afterwards the position last set. */
  method PositionReadsBack(p: Point) returns (initial: Point, after: Point)
    ensures initial == OffscreenCursorPosition && after == p
  {
    var m := new GLCursorImageManager();
    initial := m.GetGLCursorPosition();
    m.SetGLCursorPosition(p);
    after := m.GetGLCursorPosition();
  }

  /** A prepared cursor is loading afterwards; once its load finished it is
      ready and no longer loading, and no cursor is ready for NoCursor. */
  method PrepareThenLoad(c: Cursor, hotspot: Point) returns (loadingBefore: bool, ready: bool, loadingAfter: bool, readyForNone: bool)
    requires c != NoCursor
    ensures loadingBefore && ready && !loadingAfter && !readyForNone
  {
    var m := new GLCursorImageManager();
    m.PrepareCursorImage(c, true, true, hotspot);
    loadingBefore := m.IsCursorImageLoading(c);
    var task := m.loading[MapCursorState(c)];
    m.LoadFinished(task, true, 16, 16, 0);
    ready := m.IsCursorImageReady(c);
    loadingAfter := m.IsCursorImageLoading(c);
    readyForNone := m.IsCursorImageReady(NoCursor);
  }
}
