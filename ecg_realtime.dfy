/** The browser-side real-time capture controller of the diagnostic details
    page: it starts and stops a remote capture through the PHP gateway,
    polls the capture status with a retry counter, re-renders the image
    gallery from the gateway's list, caches fetched images, and pauses and
    resumes its polling timer.

    Every gateway call is a parameter of the method that makes it: a
    `Reply` is either the error `apiRequest` threw (network failure, a
    non-2xx status, a body that is not JSON) or the parsed body. The page
    is reduced to the fields it shows; the requests the controller sends,
    the notifications it raises and the downloads it triggers are kept as
    logs, so that "performs one refresh" or "never fetches" can be said. */
module EcgRealtime {
  import opened Wrappers
  import opened Text

  type ImageId = nat

  /** The notification texts. */
  const StartingText := "Démarrage de la capture..."
  const StartedText := "Capture ECG démarrée avec succès"
  const StartFailedText := "Erreur lors du démarrage"
  const StoppingText := "Arrêt de la capture..."
  const StoppedText := "Capture ECG arrêtée"
  const StopFailedText := "Erreur lors de l'arrêt"
  const ConnectionLostText := "Connexion au service ECG perdue"
  const GalleryFailedText := "Erreur lors du chargement des images"
  const ImageFailedText := "Erreur lors du chargement de l'image"
  const DownloadFailedText := "Erreur lors du téléchargement"

  /** The page's `ECG_CONFIG` object. `maxRetries` is `None` when absent. */
  datatype Config = Config(diagnosticId: nat, apiBaseUrl: string, refreshInterval: int, maxRetries: Option<int>)

  /** The outcome of one `apiRequest`. */
  datatype Reply<T> = Threw(message: string) | Replied(success: bool, error: Option<string>, data: T)

  /** `data.session_info`; `totalImages` is `None` when null. */
  datatype SessionInfo = SessionInfo(totalImages: Option<int>)
  /** `data` of a status reply. */
  datatype StatusData = StatusData(isRunning: bool, sessionInfo: Option<SessionInfo>)
  /** One element of `data.images`. */
  datatype ImageMeta = ImageMeta(id: ImageId, createdAt: string)
  /** `data` of an image-list reply; `images` is `None` when absent. */
  datatype ImagesData = ImagesData(images: Option<seq<ImageMeta>>)
  /** `data` of a single-image reply: the base64 payload and its date. */
  datatype ImageData = ImageData(imageData: Option<string>, createdAt: string)

  datatype HttpMethod = GET | POST
  datatype Request = Request(url: string, verb: HttpMethod)
  datatype NoticeKind = InfoNotice | SuccessNotice | ErrorNotice
  datatype Notice = Notice(message: string, kind: NoticeKind)
  datatype ViewMode = GridView | ListView
  /** The placeholder of one gallery item: spinner, loaded image, or warning icon. */
  datatype Thumb = ThumbLoading | ThumbShown | ThumbFailed
  datatype GalleryItem = GalleryItem(image: ImageMeta, thumb: Thumb)
  /** A key of the `imageCache` Map. A JavaScript Map tells the number 5
      from the string "5"; the gallery uses numbers, while the id read back
      from the download button's attribute is a string. */
  datatype ImageKey = NumKey(n: nat) | StrKey(s: string)

  function KeyText(k: ImageKey): string
  {
    match k
    case NumKey(n) => NatToString(n)
    case StrKey(s) => s
  }

  /** `config.maxRetries || 3`: a missing or zero setting becomes 3. */
  function EffectiveMaxRetries(configured: Option<int>): (m: int)
    ensures configured.Some? && configured.value != 0 ==> m == configured.value
    ensures configured.None? || configured.value == 0 ==> m == 3
    ensures m != 0
  {
    if configured.Some? && configured.value != 0 then configured.value else 3
  }

  /** `error.message` of the error a failed start or stop throws:
      `response.error || fallback`. */
  function FailureText(error: Option<string>, fallback: string): (r: string)
    ensures error.Some? && error.value != "" ==> r == error.value
    ensures error.None? || error.value == "" ==> r == fallback
  {
    if error.Some? && error.value != "" then error.value else fallback
  }

  /** The quotient JavaScript's `%` is defined by, `Math.trunc(a / b)` for
      a positive `b`: rounded toward zero, so it never exceeds `a / b` in
      magnitude (Dafny's `/` rounds down). */
  function JsQuot(a: int, b: int): (q: int)
    requires b > 0
    ensures a >= 0 ==> q == a / b
    ensures a < 0 ==> q <= 0 && q * b >= a && (q - 1) * b < a
  {
    if a >= 0 then a / b else -((-a) / b)
  }

  /** JavaScript's `a % b` for a positive `b`: what is left of `a` once the
      truncated quotient's multiple of `b` is taken away, so the remainder
      takes the sign of `a` (Dafny's `%` never goes negative). */
  function JsRem(a: int, b: int): (r: int)
    requires b > 0
    ensures a == JsQuot(a, b) * b + r
    ensures a >= 0 ==> r == a % b
    ensures a < 0 ==> -b < r <= 0
  {
    if a >= 0 then a % b else -((-a) % b)
  }

  /** The `mm:ss` text of the capture timer for `elapsed` whole seconds:
      `Math.floor(elapsed / 60)` and `elapsed % 60`, each through
      `toString().padStart(2, '0')`. */
  function FormatElapsed(elapsed: int): string
  {
    PadStart2(IntToString(elapsed / 60)) + ":" + PadStart2(IntToString(JsRem(elapsed, 60)))
  }

  /** `error.message` in the `catch` of a start or stop: the thrown
      error's message, or the one thrown for `success: false`. */
  function ErrorMessage(r: Reply<()>, fallback: string): string
  {
    match r
    case Threw(m) => m
    case Replied(_, err, _) => FailureText(err, fallback)
  }

  /** The capture timer's text reads back as the elapsed time: minutes
      before the colon, exactly two digits of seconds after it, and five
      characters for anything under 100 minutes. */
  lemma FormatElapsedReadsBack(elapsed: nat)
    ensures var r := FormatElapsed(elapsed);
      && |r| >= 5 && r[|r| - 3] == ':'
      && AllDigits(r[..|r| - 3]) && AllDigits(r[|r| - 2..])
      && DigitsValue(r[..|r| - 3]) * 60 + DigitsValue(r[|r| - 2..]) == elapsed
      && (elapsed < 6000 <==> |r| == 5)
  {
    var m, s := PadStart2(NatToString(elapsed / 60)), PadStart2(NatToString(elapsed % 60));
    assert FormatElapsed(elapsed) == m + ":" + s;
    PaddedNatRoundTrip(elapsed / 60);
    PaddedNatRoundTrip(elapsed % 60);
    NatToStringLength(elapsed / 60);
    ColonJoin(m, s);
  }

  /** A clock set back before the start makes the timer show negative
      minutes: the text starts with a minus sign, and one second back
      reads `-1:-1`. */
  lemma {:induction false} NegativeElapsedShowsMinus(elapsed: int)
    requires elapsed < 0
    ensures FormatElapsed(elapsed)[0] == '-'
    ensures elapsed == -1 ==> FormatElapsed(elapsed) == "-1:-1"
  {
    var m := IntToString(elapsed / 60);
    assert elapsed / 60 < 0;
    assert |m| >= 2 by { assert m[0] == '-' && |m[1..]| >= 1; }
    assert FormatElapsed(elapsed) == m + ":" + PadStart2(IntToString(JsRem(elapsed, 60)));
    if elapsed == -1 {
      assert JsRem(-1, 60) == -1;
      assert -1 / 60 == -1;
      MinusOneText();
    }
  }

  lemma MinusOneText()
    ensures IntToString(-1) == "-1" && PadStart2("-1") == "-1"
  {
    assert NatToString(1) == "1";
  }

  lemma ColonJoin(m: string, s: string)
    requires |s| == 2
    ensures var r := m + ":" + s;
      |r| == |m| + 3 && r[|r| - 3] == ':' && r[..|r| - 3] == m && r[|r| - 2..] == s
  {
  }

  /** `Math.floor((now - start) / 1000)`: whole seconds between two
      `Date.now()` readings, negative when the clock was set back. */
  function ElapsedSeconds(now: int, start: int): (e: int)
    ensures e * 1000 <= now - start < (e + 1) * 1000
    ensures e >= 0 <==> now >= start
  {
    (now - start) / 1000
  }

  /** The placeholder state `loadImageThumbnail` leaves. */
  function ThumbOutcome(r: Reply<ImageData>): Thumb
  {
    match r
    case Threw(_) => ThumbFailed
    case Replied(ok, _, d) =>
      if ok && d.imageData.Some? && d.imageData.value != "" then ThumbShown else ThumbLoading
  }

  /** The cache after `loadImageThumbnail(id)` got `r`: written only on a
      successful reply that carries image data. */
  function ThumbnailCacheWrite(cache: map<ImageKey, ImageData>, id: ImageId, r: Reply<ImageData>): map<ImageKey, ImageData>
  {
    if ThumbOutcome(r) == ThumbShown then cache[NumKey(id) := r.data] else cache
  }

  /** The cache after the thumbnails of `images` got `replies`, in order. */
  function CacheAfterThumbnails(cache: map<ImageKey, ImageData>, images: seq<ImageMeta>, replies: seq<Reply<ImageData>>): map<ImageKey, ImageData>
    requires |images| == |replies|
  {
    if images == [] then cache
    else ThumbnailCacheWrite(
      CacheAfterThumbnails(cache, images[..|images| - 1], replies[..|replies| - 1]),
      images[|images| - 1].id, replies[|replies| - 1])
  }

  /** Loading thumbnails only adds entries taken from successful replies:
      a key that no successful reply names keeps its old entry, or stays
      absent, and every new entry is the data of such a reply. */
  lemma {:induction false} ThumbnailsWriteOnlyOnSuccess(cache: map<ImageKey, ImageData>, images: seq<ImageMeta>, replies: seq<Reply<ImageData>>, k: ImageKey)
    requires |images| == |replies|
    ensures var c := CacheAfterThumbnails(cache, images, replies);
      && (k in c ==> k in cache || exists i :: 0 <= i < |images| && ThumbOutcome(replies[i]) == ThumbShown && k == NumKey(images[i].id))
      && ((forall i :: 0 <= i < |images| && k == NumKey(images[i].id) ==> ThumbOutcome(replies[i]) != ThumbShown) ==>
          (k in c <==> k in cache) && (k in cache ==> c[k] == cache[k]))
      && (k in c && k !in cache ==> exists i :: 0 <= i < |images| && ThumbOutcome(replies[i]) == ThumbShown && c[k] == replies[i].data)
  {
    if images != [] {
      var n := |images| - 1;
      ThumbnailsWriteOnlyOnSuccess(cache, images[..n], replies[..n], k);
      var prev := CacheAfterThumbnails(cache, images[..n], replies[..n]);
      var c := CacheAfterThumbnails(cache, images, replies);
      if k in c && k !in cache {
        if k == NumKey(images[n].id) && ThumbOutcome(replies[n]) == ThumbShown {
          assert c[k] == replies[n].data;
        } else {
          assert k in prev;
          var i :| 0 <= i < n && ThumbOutcome(replies[..n][i]) == ThumbShown && prev[k] == replies[..n][i].data;
          assert replies[i] == replies[..n][i];
        }
      }
      if k in c && k !in cache && !(k == NumKey(images[n].id) && ThumbOutcome(replies[n]) == ThumbShown) {
        var i :| 0 <= i < n && ThumbOutcome(replies[..n][i]) == ThumbShown && k == NumKey(images[..n][i].id);
        assert images[i] == images[..n][i] && replies[i] == replies[..n][i];
      }
      if forall i :: 0 <= i < |images| && k == NumKey(images[i].id) ==> ThumbOutcome(replies[i]) != ThumbShown {
        forall i | 0 <= i < n && k == NumKey(images[..n][i].id)
          ensures ThumbOutcome(replies[..n][i]) != ThumbShown
        {
          assert images[..n][i] == images[i] && replies[..n][i] == replies[i];
        }
      }
    }
  }

  /** The gallery `renderGallery` draws: one item per image, in the order
      received, each placeholder in the state its thumbnail reply left. */
  function RenderedItems(images: seq<ImageMeta>, replies: seq<Reply<ImageData>>): (items: seq<GalleryItem>)
    requires |images| == |replies|
    ensures |items| == |images|
    ensures forall i :: 0 <= i < |items| ==> items[i].image == images[i] && items[i].thumb == ThumbOutcome(replies[i])
  {
    seq(|images|, i requires 0 <= i < |images| => GalleryItem(images[i], ThumbOutcome(replies[i])))
  }

  lemma RenderedItemsExtend(images: seq<ImageMeta>, replies: seq<Reply<ImageData>>, i: nat)
    requires |images| == |replies| && i < |images|
    ensures RenderedItems(images[..i + 1], replies[..i + 1])
         == RenderedItems(images[..i], replies[..i]) + [GalleryItem(images[i], ThumbOutcome(replies[i]))]
  {
    var a := RenderedItems(images[..i + 1], replies[..i + 1]);
    var b := RenderedItems(images[..i], replies[..i]) + [GalleryItem(images[i], ThumbOutcome(replies[i]))];
    assert |a| == |b|;
    forall k | 0 <= k < |a|
      ensures a[k] == b[k]
    {
      if k < i {
        assert images[..i + 1][k] == images[..i][k] && replies[..i + 1][k] == replies[..i][k];
      }
    }
  }

  /** The image counter after `updateSessionInfo(info)`. */
  function SessionCount(info: SessionInfo, count: int): (c: int)
    ensures info.totalImages.Some? && info.totalImages.value != 0 ==> c == info.totalImages.value
    ensures info.totalImages.None? || info.totalImages.value == 0 ==> c == count
  {
    if info.totalImages.Some? && info.totalImages.value != 0 then info.totalImages.value else count
  }

  /** The part of the controller's state the status poll touches. */
  datatype PollState = PollState(isCapturing: bool, retryCount: nat, polling: bool, lostNotices: nat)

  /** What `checkCaptureStatus` does with one reply: a success copies
      `is_running` and resets the counter, a thrown error counts one retry
      and, at the threshold, raises "connection lost" and pauses polling,
      and `success: false` changes nothing. */
  function StatusStep(s: PollState, r: Reply<StatusData>, maxRetries: int): (t: PollState)
    ensures r.Replied? && r.success ==> t == s.(isCapturing := r.data.isRunning, retryCount := 0)
    ensures r.Threw? ==> t.retryCount == s.retryCount + 1 && t.isCapturing == s.isCapturing
    ensures r.Threw? ==> (t.polling <==> s.polling && t.retryCount < maxRetries)
    ensures r.Threw? ==> t.lostNotices == s.lostNotices + (if t.retryCount >= maxRetries then 1 else 0)
    ensures r.Replied? && !r.success ==> t == s
  {
    match r
    case Replied(ok, _, d) => if ok then s.(isCapturing := d.isRunning, retryCount := 0) else s
    case Threw(_) =>
      var n := s.retryCount + 1;
      if n >= maxRetries then s.(retryCount := n, polling := false, lostNotices := s.lostNotices + 1)
      else s.(retryCount := n)
  }

  /** Status polls driven by the interval: each reply is handled only
      while the timer still runs, since no tick fires after a pause. */
  function TimerPolls(s: PollState, replies: seq<Reply<StatusData>>, maxRetries: int): PollState
    decreases |replies|
  {
    if replies == [] || !s.polling then s
    else TimerPolls(StatusStep(s, replies[0], maxRetries), replies[1..], maxRetries)
  }

  predicate AllThrew(replies: seq<Reply<StatusData>>)
  {
    forall i :: 0 <= i < |replies| ==> replies[i].Threw?
  }

  /** Consecutive failed polls from a running timer: the counter climbs by
      one per poll until it reaches the threshold, which halts the timer
      with exactly one "connection lost" notice; further would-be polls
      never run. */
  lemma {:induction false} FailedPollsHaltOnce(s: PollState, replies: seq<Reply<StatusData>>, maxRetries: int)
    requires s.polling && s.retryCount < maxRetries && AllThrew(replies)
    ensures var t := TimerPolls(s, replies, maxRetries);
      && (|replies| < maxRetries - s.retryCount ==> t == s.(retryCount := s.retryCount + |replies|))
      && (|replies| >= maxRetries - s.retryCount ==>
           t == s.(retryCount := maxRetries, polling := false, lostNotices := s.lostNotices + 1))
    decreases |replies|
  {
    if replies != [] {
      var s' := StatusStep(s, replies[0], maxRetries);
      if s'.polling {
        FailedPollsHaltOnce(s', replies[1..], maxRetries);
      } else {
        assert TimerPolls(s', replies[1..], maxRetries) == s';
      }
    }
  }

  /** A successful poll clears the retry counter, so failures count only
      while consecutive: a success after failures starts the count afresh. */
  lemma SuccessResetsRetries(s: PollState, d: StatusData, maxRetries: int)
    ensures StatusStep(s, Replied(true, None, d), maxRetries).retryCount == 0
    ensures StatusStep(s, Replied(true, None, d), maxRetries).polling == s.polling
  {
  }

  /** The download file name `downloadImage` gives an image. */
  function DownloadFileName(diagnosticId: nat, key: ImageKey): string
  {
    "ecg_diagnostic_" + NatToString(diagnosticId) + "_image_" + KeyText(key) + ".png"
  }

  /** What the controller leaves in its browser environment: the interval
      handles handed out and not yet cleared, and the logs of requests
      sent, notifications shown and downloads triggered. */
  datatype Env = Env(
    nextTimerId: nat,
    pollIntervals: set<nat>,
    captureIntervals: set<nat>,
    requests: seq<Request>,
    notices: seq<Notice>,
    downloads: seq<string>)
  {
    function Sent(r: Request): Env { this.(requests := requests + [r]) }
    function Notified(n: Notice): Env { this.(notices := notices + [n]) }
    function Downloaded(name: string): Env { this.(downloads := downloads + [name]) }
    /** `setInterval` for the status poll or the capture timer. */
    function PollIntervalSet(): Env { this.(nextTimerId := nextTimerId + 1, pollIntervals := pollIntervals + {nextTimerId}) }
    function CaptureIntervalSet(): Env { this.(nextTimerId := nextTimerId + 1, captureIntervals := captureIntervals + {nextTimerId}) }
    /** `clearInterval`. */
    function PollIntervalCleared(id: nat): Env { this.(pollIntervals := pollIntervals - {id}) }
    function CaptureIntervalCleared(id: nat): Env { this.(captureIntervals := captureIntervals - {id}) }
  }

  /** The page elements the controller writes: the gallery items, the image
      counter, the "no images" message, the start/stop buttons' disabled
      flag, whether the status light shows a running capture, the view
      mode, the image in the modal, the download button's attribute and the
      capture-time display. */
  datatype Page = Page(
    gallery: seq<GalleryItem>,
    imageCount: int,
    noImagesShown: bool,
    buttonsDisabled: bool,
    showsRunning: bool,
    viewMode: ViewMode,
    modalImage: Option<ImageKey>,
    downloadTarget: Option<string>,
    captureTimeText: string)

  /** The markup the page is served with: idle status, count 0, timer 00:00, grid view. */
  const InitialPage := Page([], 0, false, false, false, GridView, None, None, "00:00")

  /** The controller's mutable fields, as one value. */
  datatype State = State(
    isCapturing: bool,
    captureStartTime: Option<int>,
    refreshInterval: Option<nat>,
    captureTimer: Option<nat>,
    imageCache: map<ImageKey, ImageData>,
    retryCount: nat,
    page: Page,
    env: Env)

  /** Status polls driven by `Controller.PollTick` see the poll part of `State`. */
  function PollOf(s: State): PollState
  {
    PollState(s.isCapturing, s.retryCount, s.refreshInterval.Some?, |s.env.notices|)
  }

  class Controller {
    const config: Config
    const maxRetries: int

    var isCapturing: bool
    var captureStartTime: Option<int>
    /** The polling interval handle, `null` when paused. */
    var refreshInterval: Option<nat>
    /** The capture-timer interval handle. */
    var captureTimer: Option<nat>
    var imageCache: map<ImageKey, ImageData>
    var retryCount: nat
    var page: Page
    var env: Env

    function St(): State
      reads this
    {
      State(isCapturing, captureStartTime, refreshInterval, captureTimer, imageCache, retryCount, page, env)
    }

    /** The controller's invariant: handles name live intervals, at most
        one polling interval is ever live, every cache key is a number, and
        the status display follows `isCapturing`. */
    ghost predicate Valid()
      reads this
    {
      && (refreshInterval.None? ==> env.pollIntervals == {})
      && (refreshInterval.Some? ==> env.pollIntervals == {refreshInterval.value})
      && (captureTimer.Some? ==> captureTimer.value in env.captureIntervals)
      && env.nextTimerId > 0
      && (forall t :: t in env.pollIntervals ==> 0 < t < env.nextTimerId)
      && (forall t :: t in env.captureIntervals ==> 0 < t < env.nextTimerId)
      && (forall k :: k in imageCache ==> k.NumKey?)
      && page.showsRunning == isCapturing
    }

    function Url(path: string): string
    {
      config.apiBaseUrl + path
    }

    function DiagnosticRequest(action: string, verb: HttpMethod): Request
    {
      Request(Url("/" + action + "/" + NatToString(config.diagnosticId)), verb)
    }

    function ImageRequest(key: ImageKey): Request
    {
      Request(Url("/image/" + KeyText(key)), GET)
    }

    function ThumbRequests(images: seq<ImageMeta>): (rs: seq<Request>)
      ensures |rs| == |images|
      ensures forall i :: 0 <= i < |images| ==> rs[i] == ImageRequest(NumKey(images[i].id))
    {
      seq(|images|, i requires 0 <= i < |images| => ImageRequest(NumKey(images[i].id)))
    }

    lemma ThumbRequestsExtend(images: seq<ImageMeta>, i: nat)
      requires i < |images|
      ensures ThumbRequests(images[..i + 1]) == ThumbRequests(images[..i]) + [ImageRequest(NumKey(images[i].id))]
    {
      assert images[..i + 1][..i] == images[..i];
    }

    /** The images a list reply carries: `response.data.images || []`. */
    static function ImagesOf(r: Reply<ImagesData>): seq<ImageMeta>
      requires r.Replied?
    {
      r.data.images.GetOr([])
    }

    /** One thumbnail reply per image a successful list reply names. */
    static predicate ThumbRepliesFit(r: Reply<ImagesData>, thumbReplies: seq<Reply<ImageData>>)
    {
      r.Replied? && r.success ==> |thumbReplies| == |ImagesOf(r)|
    }

    /** The state `renderGallery(images)` leaves behind. */
    function AfterRender(s: State, images: seq<ImageMeta>, thumbReplies: seq<Reply<ImageData>>): State
      requires |images| == |thumbReplies|
    {
      s.(page := s.page.(gallery := RenderedItems(images, thumbReplies), noImagesShown := images == []),
         imageCache := CacheAfterThumbnails(s.imageCache, images, thumbReplies),
         env := s.env.(requests := s.env.requests + ThumbRequests(images)))
    }

    /** The state `refreshGallery` leaves behind. */
    function AfterRefresh(s: State, r: Reply<ImagesData>, thumbReplies: seq<Reply<ImageData>>): State
      requires ThumbRepliesFit(r, thumbReplies)
    {
      var s1 := s.(env := s.env.Sent(DiagnosticRequest("images", GET)));
      match r
      case Threw(_) => s1.(env := s1.env.Notified(Notice(GalleryFailedText, ErrorNotice)))
      case Replied(ok, _, _) =>
        if !ok then s1
        else
          var s2 := AfterRender(s1, ImagesOf(r), thumbReplies);
          s2.(page := s2.page.(imageCount := |ImagesOf(r)|))
    }

    constructor (cfg: Config)
      ensures Valid()
      ensures config == cfg && maxRetries == EffectiveMaxRetries(cfg.maxRetries)
      ensures St() == State(false, None, None, None, map[], 0, InitialPage, Env(1, {}, {}, [], [], []))
    {
      config := cfg;
      maxRetries := EffectiveMaxRetries(cfg.maxRetries);
      isCapturing := false;
      captureStartTime := None;
      refreshInterval := None;
      captureTimer := None;
      imageCache := map[];
      retryCount := 0;
      page := InitialPage;
      env := Env(1, {}, {}, [], [], []);
    }

    /** `updateUI`: the status light and buttons follow `isCapturing`. */
    method UpdateUI()
      modifies this
      ensures St() == old(St()).(page := old(page).(showsRunning := isCapturing))
    {
      page := page.(showsRunning := isCapturing);
    }

    method ShowNotification(message: string, kind: NoticeKind)
      modifies this
      ensures St() == old(St()).(env := old(env).Notified(Notice(message, kind)))
    {
      env := env.Notified(Notice(message, kind));
    }

    method SetButtonsLoading(loading: bool)
      modifies this
      ensures St() == old(St()).(page := old(page).(buttonsDisabled := loading))
    {
      page := page.(buttonsDisabled := loading);
    }

    /** `updateImageCount`. */
    method UpdateImageCount(count: int)
      modifies this
      ensures St() == old(St()).(page := old(page).(imageCount := count))
    {
      page := page.(imageCount := count);
    }

    /** `updateSessionInfo`: the counter changes only when `total_images`
        is truthy. */
    method UpdateSessionInfo(info: SessionInfo)
      modifies this
      ensures St() == old(St()).(page := old(page).(imageCount := SessionCount(info, old(page.imageCount))))
    {
      if info.totalImages.Some? && info.totalImages.value != 0 {
        UpdateImageCount(info.totalImages.value);
      }
    }

    /** `startStatusPolling`: a new polling interval. */
    method StartStatusPolling()
      requires Valid() && refreshInterval.None?
      modifies this
      ensures Valid()
      ensures St() == old(St()).(refreshInterval := Some(old(env.nextTimerId)), env := old(env).PollIntervalSet())
    {
      refreshInterval := Some(env.nextTimerId);
      env := env.PollIntervalSet();
    }

    /** `pausePolling`: clears the polling interval if there is one; a
        second call changes nothing. */
    method PausePolling()
      requires Valid()
      modifies this
      ensures Valid()
      ensures refreshInterval.None? && env.pollIntervals == {}
      ensures old(refreshInterval).None? ==> St() == old(St())
      ensures old(refreshInterval).Some? ==>
        St() == old(St()).(refreshInterval := None, env := old(env).PollIntervalCleared(old(refreshInterval).value))
    {
      if refreshInterval.Some? {
        env := env.PollIntervalCleared(refreshInterval.value);
        refreshInterval := None;
      }
    }

    /** `resumePolling`: starts an interval only when none runs. */
    method ResumePolling()
      requires Valid()
      modifies this
      ensures Valid()
      ensures refreshInterval.Some? && env.pollIntervals == {refreshInterval.value}
      ensures old(refreshInterval).Some? ==> St() == old(St())
      ensures old(refreshInterval).None? ==>
        St() == old(St()).(refreshInterval := Some(old(env.nextTimerId)), env := old(env).PollIntervalSet())
    {
      if refreshInterval.None? {
        StartStatusPolling();
      }
    }

    /** The `visibilitychange` listener: pause while hidden, resume when shown. */
    method VisibilityChanged(hidden: bool)
      requires Valid()
      modifies this
      ensures Valid()
      ensures hidden ==> refreshInterval.None? && env.pollIntervals == {}
      ensures !hidden ==> refreshInterval.Some? && env.pollIntervals == {refreshInterval.value}
      ensures (hidden && old(refreshInterval).None?) || (!hidden && old(refreshInterval).Some?) ==> St() == old(St())
    {
      if hidden {
        PausePolling();
      } else {
        ResumePolling();
      }
    }

    /** `startCaptureTimer`: a new capture-timer interval. An interval
        whose handle this overwrites stays live. */
    method StartCaptureTimer()
      requires Valid()
      modifies this
      ensures Valid()
      ensures St() == old(St()).(captureTimer := Some(old(env.nextTimerId)), env := old(env).CaptureIntervalSet())
    {
      captureTimer := Some(env.nextTimerId);
      env := env.CaptureIntervalSet();
    }

    /** `stopCaptureTimer`: clears the interval of the current handle. */
    method StopCaptureTimer()
      requires Valid()
      modifies this
      ensures Valid()
      ensures captureTimer.None?
      ensures old(captureTimer).None? ==> St() == old(St())
      ensures old(captureTimer).Some? ==>
        St() == old(St()).(captureTimer := None, env := old(env).CaptureIntervalCleared(old(captureTimer).value))
    {
      if captureTimer.Some? {
        env := env.CaptureIntervalCleared(captureTimer.value);
        captureTimer := None;
      }
    }

    /** One firing of a live capture-timer interval at time `now`: while a
        start time is set (and truthy: a reading of 0 is not) the display
        shows the elapsed `mm:ss`, negative when the clock went back. */
    method CaptureTimerTick(now: int)
      requires Valid() && env.captureIntervals != {}
      modifies this
      ensures Valid()
      ensures old(captureStartTime).Some? && old(captureStartTime).value != 0 ==>
        St() == old(St()).(page := old(page).(captureTimeText := FormatElapsed(ElapsedSeconds(now, old(captureStartTime).value))))
      ensures old(captureStartTime).None? || old(captureStartTime).value == 0 ==> St() == old(St())
    {
      if captureStartTime.Some? && captureStartTime.value != 0 {
        var elapsed := ElapsedSeconds(now, captureStartTime.value);
        page := page.(captureTimeText := PadStart2(IntToString(elapsed / 60)) + ":" + PadStart2(IntToString(JsRem(elapsed, 60))));
      }
    }

    /** The first steps of a start or stop: buttons disabled, an info
        notice, then the POST. */
    function Begin(s: State, text: string, action: string): State
    {
      s.(page := s.page.(buttonsDisabled := true),
         env := s.env.Notified(Notice(text, InfoNotice)).Sent(DiagnosticRequest(action, POST)))
    }

    /** The `catch` of a start or stop: "Erreur: " and the error's message. */
    function Failed(s: State, message: string): State
    {
      s.(env := s.env.Notified(Notice("Erreur: " + message, ErrorNotice)))
    }

    /** The `finally` of a start or stop: the buttons are enabled again. */
    function Finish(s: State): State
    {
      s.(page := s.page.(buttonsDisabled := false))
    }

    /** A successful start at time `now`. */
    function Started(s: State, now: int): State
    {
      s.(isCapturing := true, captureStartTime := Some(now), page := s.page.(showsRunning := true),
         captureTimer := Some(s.env.nextTimerId),
         env := s.env.Notified(Notice(StartedText, SuccessNotice)).CaptureIntervalSet())
    }

    /** A successful stop, before the gallery refresh that follows it. */
    function Stopped(s: State): State
    {
      var s1 := s.(isCapturing := false, captureStartTime := None, page := s.page.(showsRunning := false),
                   env := s.env.Notified(Notice(StoppedText, SuccessNotice)));
      if s.captureTimer.Some? then s1.(captureTimer := None, env := s1.env.CaptureIntervalCleared(s.captureTimer.value))
      else s1
    }

    /** The state `handleStartCapture` leaves behind. */
    function AfterStart(s: State, r: Reply<()>, now: int): State
    {
      var s1 := Begin(s, StartingText, "start");
      Finish(if r.Replied? && r.success then Started(s1, now) else Failed(s1, ErrorMessage(r, StartFailedText)))
    }

    /** What a start promises. A successful reply starts the capture at
        `now` with a new capture interval. Otherwise the capture state,
        timers, gallery and cache are as they were, and the only trace is
        the "Erreur: " notice. The buttons are enabled again in every case,
        and exactly one POST is sent. */
    lemma StartPromises(s: State, r: Reply<()>, now: int)
      ensures var t := AfterStart(s, r, now);
        && !t.page.buttonsDisabled
        && t.env.requests == s.env.requests + [DiagnosticRequest("start", POST)]
        && t.env.pollIntervals == s.env.pollIntervals && t.refreshInterval == s.refreshInterval
        && (r.Replied? && r.success ==>
              && t.isCapturing && t.captureStartTime == Some(now) && t.page.showsRunning
              && t.captureTimer == Some(s.env.nextTimerId)
              && t.env.captureIntervals == s.env.captureIntervals + {s.env.nextTimerId}
              && t.env.notices == s.env.notices + [Notice(StartingText, InfoNotice), Notice(StartedText, SuccessNotice)])
        && (!(r.Replied? && r.success) ==>
              && t == s.(page := s.page.(buttonsDisabled := false),
                         env := s.env.(requests := t.env.requests, notices := t.env.notices))
              && t.env.notices == s.env.notices + [Notice(StartingText, InfoNotice),
                                                   Notice("Erreur: " + ErrorMessage(r, StartFailedText), ErrorNotice)])
    {
    }

    /** A gallery refresh sends the list request, then the thumbnails of a
        successful list, and touches neither the capture state nor the
        timers. */
    lemma RefreshKeepsCapture(s: State, r: Reply<ImagesData>, thumbReplies: seq<Reply<ImageData>>)
      requires ThumbRepliesFit(r, thumbReplies)
      ensures var t := AfterRefresh(s, r, thumbReplies);
        && t.isCapturing == s.isCapturing && t.captureStartTime == s.captureStartTime
        && t.captureTimer == s.captureTimer && t.refreshInterval == s.refreshInterval
        && t.env.pollIntervals == s.env.pollIntervals && t.env.captureIntervals == s.env.captureIntervals
        && t.page.showsRunning == s.page.showsRunning
        && t.env.requests == s.env.requests + [DiagnosticRequest("images", GET)]
                             + (if r.Replied? && r.success then ThumbRequests(ImagesOf(r)) else [])
    {
      if r.Replied? && r.success {
        var s1 := s.(env := s.env.Sent(DiagnosticRequest("images", GET)));
        assert AfterRender(s1, ImagesOf(r), thumbReplies).env.requests
          == s1.env.requests + ThumbRequests(ImagesOf(r));
      }
    }

    /** A successful stop ends the capture and clears the capture timer,
        and is followed by exactly one gallery request after the stop POST
        (then the thumbnails of a successful list). The buttons are enabled
        again. */
    lemma StopSucceeded(s: State, r: Reply<()>, galleryReply: Reply<ImagesData>, thumbReplies: seq<Reply<ImageData>>)
      requires ThumbRepliesFit(galleryReply, thumbReplies) && r.Replied? && r.success
      ensures var t := AfterStop(s, r, galleryReply, thumbReplies);
        && !t.page.buttonsDisabled
        && t.env.pollIntervals == s.env.pollIntervals && t.refreshInterval == s.refreshInterval
        && !t.isCapturing && t.captureStartTime.None? && t.captureTimer.None? && !t.page.showsRunning
        && t.env.captureIntervals == (if s.captureTimer.Some? then s.env.captureIntervals - {s.captureTimer.value}
                                      else s.env.captureIntervals)
        && t.env.requests == s.env.requests + [DiagnosticRequest("stop", POST), DiagnosticRequest("images", GET)]
                             + (if galleryReply.Replied? && galleryReply.success then ThumbRequests(ImagesOf(galleryReply)) else [])
    {
      var s0 := Begin(s, StoppingText, "stop");
      var s1 := Stopped(s0);
      assert s1.env.requests == s.env.requests + [DiagnosticRequest("stop", POST)];
      RefreshKeepsCapture(s1, galleryReply, thumbReplies);
      var s2 := AfterRefresh(s1, galleryReply, thumbReplies);
      var thumbs := if galleryReply.Replied? && galleryReply.success then ThumbRequests(ImagesOf(galleryReply)) else [];
      assert s2.env.requests == s.env.requests + [DiagnosticRequest("stop", POST), DiagnosticRequest("images", GET)] + thumbs by {
        assert s2.env.requests == s1.env.requests + [DiagnosticRequest("images", GET)] + thumbs;
        assert s.env.requests + [DiagnosticRequest("stop", POST)] + [DiagnosticRequest("images", GET)]
            == s.env.requests + [DiagnosticRequest("stop", POST), DiagnosticRequest("images", GET)];
      }
      assert AfterStop(s, r, galleryReply, thumbReplies) == Finish(s2);
    }

    /** A failed stop sends only the stop POST, so there is no refresh; the
        capture state, timers, gallery and cache are as they were, the only
        trace being the "Erreur: " notice, and the buttons are enabled
        again. */
    lemma StopFailed(s: State, r: Reply<()>, galleryReply: Reply<ImagesData>, thumbReplies: seq<Reply<ImageData>>)
      requires ThumbRepliesFit(galleryReply, thumbReplies) && !(r.Replied? && r.success)
      ensures var t := AfterStop(s, r, galleryReply, thumbReplies);
        && t == s.(page := s.page.(buttonsDisabled := false),
                   env := s.env.(requests := t.env.requests, notices := t.env.notices))
        && t.env.requests == s.env.requests + [DiagnosticRequest("stop", POST)]
        && t.env.notices == s.env.notices + [Notice(StoppingText, InfoNotice),
                                             Notice("Erreur: " + ErrorMessage(r, StopFailedText), ErrorNotice)]
    {
    }

    /** The first steps of `handleStartCapture` and `handleStopCapture`. */
    method BeginAction(text: string, action: string)
      requires Valid()
      modifies this
      ensures Valid()
      ensures St() == Begin(old(St()), text, action)
    {
      SetButtonsLoading(true);
      ShowNotification(text, InfoNotice);
      env := env.Sent(DiagnosticRequest(action, POST));
    }

    /** The success branch of `handleStartCapture`. */
    method OnStarted(now: int)
      requires Valid()
      modifies this
      ensures Valid()
      ensures St() == Started(old(St()), now)
    {
      isCapturing := true;
      captureStartTime := Some(now);
      UpdateUI();
      ShowNotification(StartedText, SuccessNotice);
      StartCaptureTimer();
    }

    /** `handleStartCapture` with the gateway's reply and the clock. */
    method HandleStartCapture(r: Reply<()>, now: int)
      requires Valid()
      modifies this
      ensures Valid()
      ensures St() == AfterStart(old(St()), r, now)
      ensures !page.buttonsDisabled && env.requests == old(env.requests) + [DiagnosticRequest("start", POST)]
      ensures r.Replied? && r.success ==>
                isCapturing && captureStartTime == Some(now) && captureTimer == Some(old(env.nextTimerId))
      ensures !(r.Replied? && r.success) ==>
                && isCapturing == old(isCapturing) && captureStartTime == old(captureStartTime)
                && captureTimer == old(captureTimer) && env.captureIntervals == old(env.captureIntervals)
                && page.gallery == old(page.gallery) && imageCache == old(imageCache)
    {
      ghost var s := St();
      BeginAction(StartingText, "start");
      if r.Replied? && r.success {
        OnStarted(now);
      } else {
        ShowNotification("Erreur: " + ErrorMessage(r, StartFailedText), ErrorNotice);
      }
      SetButtonsLoading(false);
      StartPromises(s, r, now);
    }

    /** The state `handleStopCapture` leaves behind: a successful stop is
        followed by exactly one gallery refresh. */
    function AfterStop(s: State, r: Reply<()>, galleryReply: Reply<ImagesData>, thumbReplies: seq<Reply<ImageData>>): State
      requires ThumbRepliesFit(galleryReply, thumbReplies)
    {
      var s1 := Begin(s, StoppingText, "stop");
      Finish(if r.Replied? && r.success then AfterRefresh(Stopped(s1), galleryReply, thumbReplies)
             else Failed(s1, ErrorMessage(r, StopFailedText)))
    }

    /** The success branch of `handleStopCapture`, before its refresh. */
    method OnStopped()
      requires Valid()
      modifies this
      ensures Valid()
      ensures St() == Stopped(old(St()))
    {
      isCapturing := false;
      captureStartTime := None;
      UpdateUI();
      ShowNotification(StoppedText, SuccessNotice);
      StopCaptureTimer();
    }

    /** The `try` and `catch` branches of `handleStopCapture`, after the
        stop POST. */
    method StopReplied(r: Reply<()>, galleryReply: Reply<ImagesData>, thumbReplies: seq<Reply<ImageData>>)
      requires Valid() && ThumbRepliesFit(galleryReply, thumbReplies)
      modifies this
      ensures Valid()
      ensures St() == if r.Replied? && r.success then AfterRefresh(Stopped(old(St())), galleryReply, thumbReplies)
                      else Failed(old(St()), ErrorMessage(r, StopFailedText))
    {
      if r.Replied? && r.success {
        OnStopped();
        RefreshGallery(galleryReply, thumbReplies);
      } else {
        ShowNotification("Erreur: " + ErrorMessage(r, StopFailedText), ErrorNotice);
      }
    }

    /** `handleStopCapture`, given the stop reply, the list reply of the
        refresh that follows a success, and its thumbnail replies. */
    method HandleStopCapture(r: Reply<()>, galleryReply: Reply<ImagesData>, thumbReplies: seq<Reply<ImageData>>)
      requires Valid() && ThumbRepliesFit(galleryReply, thumbReplies)
      modifies this
      ensures Valid()
      ensures St() == AfterStop(old(St()), r, galleryReply, thumbReplies)
      ensures !page.buttonsDisabled
      ensures r.Replied? && r.success ==>
                && !isCapturing && captureStartTime.None? && captureTimer.None?
                && env.requests == old(env.requests) + [DiagnosticRequest("stop", POST), DiagnosticRequest("images", GET)]
                                   + (if galleryReply.Replied? && galleryReply.success then ThumbRequests(ImagesOf(galleryReply)) else [])
      ensures !(r.Replied? && r.success) ==>
                && env.requests == old(env.requests) + [DiagnosticRequest("stop", POST)]
                && isCapturing == old(isCapturing) && captureStartTime == old(captureStartTime)
                && captureTimer == old(captureTimer) && env.captureIntervals == old(env.captureIntervals)
                && page.gallery == old(page.gallery) && imageCache == old(imageCache)
    {
      ghost var s := St();
      BeginAction(StoppingText, "stop");
      StopReplied(r, galleryReply, thumbReplies);
      SetButtonsLoading(false);
      if r.Replied? && r.success {
        StopSucceeded(s, r, galleryReply, thumbReplies);
      } else {
        StopFailed(s, r, galleryReply, thumbReplies);
      }
    }

    /** What a successful status reply does. */
    function StatusApplied(s: State, d: StatusData): State
    {
      var count := if d.sessionInfo.Some? then SessionCount(d.sessionInfo.value, s.page.imageCount) else s.page.imageCount;
      s.(isCapturing := d.isRunning, retryCount := 0, page := s.page.(imageCount := count, showsRunning := d.isRunning))
    }

    /** What a thrown status request does: one more retry and, from the
        threshold on, the "connection lost" notice and a paused poll. */
    function StatusFailed(s: State): State
    {
      var s1 := s.(retryCount := s.retryCount + 1);
      if s.retryCount + 1 < maxRetries then s1
      else
        var s2 := s1.(env := s1.env.Notified(Notice(ConnectionLostText, ErrorNotice)));
        if s.refreshInterval.None? then s2
        else s2.(refreshInterval := None, env := s2.env.PollIntervalCleared(s.refreshInterval.value))
    }

    /** The state `checkCaptureStatus` leaves behind. */
    function AfterStatus(s: State, r: Reply<StatusData>): State
    {
      var s1 := s.(env := s.env.Sent(DiagnosticRequest("status", GET)));
      match r
      case Replied(ok, _, d) => if ok then StatusApplied(s1, d) else s1
      case Threw(_) => StatusFailed(s1)
    }

    method ApplyStatus(d: StatusData)
      requires Valid()
      modifies this
      ensures Valid()
      ensures St() == StatusApplied(old(St()), d)
    {
      isCapturing := d.isRunning;
      if d.sessionInfo.Some? {
        UpdateSessionInfo(d.sessionInfo.value);
      }
      UpdateUI();
      retryCount := 0;
    }

    method CountStatusFailure()
      requires Valid()
      modifies this
      ensures Valid()
      ensures St() == StatusFailed(old(St()))
    {
      retryCount := retryCount + 1;
      if retryCount >= maxRetries {
        ShowNotification(ConnectionLostText, ErrorNotice);
        PausePolling();
      }
    }

    /** `checkCaptureStatus` with its reply. */
    method CheckCaptureStatus(r: Reply<StatusData>)
      requires Valid()
      modifies this
      ensures Valid()
      ensures St() == AfterStatus(old(St()), r)
    {
      env := env.Sent(DiagnosticRequest("status", GET));
      match r {
        case Replied(ok, _, d) =>
          if ok {
            ApplyStatus(d);
          }
        case Threw(_) =>
          CountStatusFailure();
      }
    }

    /** The effect of one status reply on the poll state is `StatusStep`. */
    lemma StatusIsStatusStep(s: State, r: Reply<StatusData>)
      ensures PollOf(AfterStatus(s, r)) == StatusStep(PollOf(s), r, maxRetries)
    {
    }

    /** `loadImageThumbnail`: always fetches, never reads the cache, and
        writes it only when the reply succeeds with image data. */
    method LoadImageThumbnail(id: ImageId, r: Reply<ImageData>) returns (thumb: Thumb)
      requires Valid()
      modifies this
      ensures Valid()
      ensures thumb == ThumbOutcome(r)
      ensures St() == old(St()).(imageCache := ThumbnailCacheWrite(old(imageCache), id, r),
                                 env := old(env).Sent(ImageRequest(NumKey(id))))
    {
      env := env.Sent(ImageRequest(NumKey(id)));
      match r
      case Replied(ok, _, d) =>
        if ok && d.imageData.Some? && d.imageData.value != "" {
          imageCache := imageCache[NumKey(id) := d];
          thumb := ThumbShown;
        } else {
          thumb := ThumbLoading;
        }
      case Threw(_) =>
        thumb := ThumbFailed;
    }

    /** `renderGallery`: clears the gallery, then appends one item per
        image in order, each loading its own thumbnail. */
    method RenderGallery(images: seq<ImageMeta>, thumbReplies: seq<Reply<ImageData>>)
      requires Valid() && |thumbReplies| == |images|
      modifies this
      ensures Valid()
      ensures St() == AfterRender(old(St()), images, thumbReplies)
    {
      page := page.(gallery := []);
      if |images| == 0 {
        page := page.(noImagesShown := true);
        EmptyRender(old(St()));
        return;
      }
      page := page.(noImagesShown := false);
      ghost var s0 := St();
      AppendGalleryItems(images, thumbReplies);
      RenderedAll(s0, images, thumbReplies);
      assert AfterRender(s0, images, thumbReplies) == AfterRender(old(St()), images, thumbReplies);
    }

    /** `renderGallery` of an empty list only shows the "no images" message. */
    lemma EmptyRender(s: State)
      ensures AfterRender(s, [], []) == s.(page := s.page.(gallery := [], noImagesShown := true))
    {
      assert ThumbRequests([]) == [];
      assert s.env.requests + [] == s.env.requests;
    }

    /** The state after the first `i` items of the `forEach`. */
    function RenderedPrefix(s: State, images: seq<ImageMeta>, thumbReplies: seq<Reply<ImageData>>, i: nat): State
      requires |images| == |thumbReplies| && i <= |images|
    {
      s.(page := s.page.(gallery := s.page.gallery + RenderedItems(images[..i], thumbReplies[..i])),
         imageCache := CacheAfterThumbnails(s.imageCache, images[..i], thumbReplies[..i]),
         env := s.env.(requests := s.env.requests + ThumbRequests(images[..i])))
    }

    /** One item of the `forEach`: the thumbnail's effect, then the item. */
    function ItemAdded(s: State, image: ImageMeta, r: Reply<ImageData>): State
    {
      s.(page := s.page.(gallery := s.page.gallery + [GalleryItem(image, ThumbOutcome(r))]),
         imageCache := ThumbnailCacheWrite(s.imageCache, image.id, r),
         env := s.env.Sent(ImageRequest(NumKey(image.id))))
    }

    lemma RenderedStep(s: State, images: seq<ImageMeta>, thumbReplies: seq<Reply<ImageData>>, i: nat)
      requires |images| == |thumbReplies| && i < |images|
      ensures RenderedPrefix(s, images, thumbReplies, i + 1)
           == ItemAdded(RenderedPrefix(s, images, thumbReplies, i), images[i], thumbReplies[i])
    {
      assert images[..i + 1][..i] == images[..i];
      assert thumbReplies[..i + 1][..i] == thumbReplies[..i];
      ThumbRequestsExtend(images, i);
      RenderedItemsExtend(images, thumbReplies, i);
      var g := s.page.gallery;
      assert g + RenderedItems(images[..i + 1], thumbReplies[..i + 1])
          == (g + RenderedItems(images[..i], thumbReplies[..i])) + [GalleryItem(images[i], ThumbOutcome(thumbReplies[i]))];
      var q := s.env.requests;
      assert q + ThumbRequests(images[..i + 1]) == (q + ThumbRequests(images[..i])) + [ImageRequest(NumKey(images[i].id))];
    }

    lemma RenderedAll(s: State, images: seq<ImageMeta>, thumbReplies: seq<Reply<ImageData>>)
      requires |images| == |thumbReplies| && images != [] && s.page.gallery == [] && !s.page.noImagesShown
      ensures RenderedPrefix(s, images, thumbReplies, |images|) == AfterRender(s, images, thumbReplies)
    {
      assert images[..|images|] == images && thumbReplies[..|thumbReplies|] == thumbReplies;
    }

    /** An item of the `forEach`: `createImageElement` loads the thumbnail
        and the item is appended. */
    method AddGalleryItem(image: ImageMeta, r: Reply<ImageData>)
      requires Valid()
      modifies this
      ensures Valid()
      ensures St() == ItemAdded(old(St()), image, r)
    {
      var thumb := LoadImageThumbnail(image.id, r);
      page := page.(gallery := page.gallery + [GalleryItem(image, thumb)]);
    }

    /** The `forEach` of `renderGallery` over a non-empty list. */
    method AppendGalleryItems(images: seq<ImageMeta>, thumbReplies: seq<Reply<ImageData>>)
      requires Valid() && |thumbReplies| == |images|
      modifies this
      ensures Valid()
      ensures St() == RenderedPrefix(old(St()), images, thumbReplies, |images|)
    {
      var i := 0;
      assert RenderedPrefix(old(St()), images, thumbReplies, 0) == old(St()) by {
        assert old(page.gallery) + [] == old(page.gallery);
        assert old(env.requests) + [] == old(env.requests);
      }
      while i < |images|
        invariant 0 <= i <= |images|
        invariant Valid()
        invariant St() == RenderedPrefix(old(St()), images, thumbReplies, i)
      {
        AddGalleryItem(images[i], thumbReplies[i]);
        RenderedStep(old(St()), images, thumbReplies, i);
        i := i + 1;
      }
    }

    /** `refreshGallery`: on success the gallery is replaced wholesale by
        the returned list, in the returned order, and the counter shows its
        length; otherwise gallery, counter and cache are left alone. */
    method RefreshGallery(r: Reply<ImagesData>, thumbReplies: seq<Reply<ImageData>>)
      requires Valid() && ThumbRepliesFit(r, thumbReplies)
      modifies this
      ensures Valid()
      ensures St() == AfterRefresh(old(St()), r, thumbReplies)
    {
      env := env.Sent(DiagnosticRequest("images", GET));
      match r
      case Replied(ok, _, d) =>
        if ok {
          var images := d.images.GetOr([]);
          RenderGallery(images, thumbReplies);
          UpdateImageCount(|images|);
        }
      case Threw(_) =>
        ShowNotification(GalleryFailedText, ErrorNotice);
    }

    /** A refresh leaves the gallery showing exactly the returned images,
        or, when it fails, the gallery, counter and cache as they were. */
    lemma RefreshShowsReturnedImages(s: State, r: Reply<ImagesData>, thumbReplies: seq<Reply<ImageData>>)
      requires ThumbRepliesFit(r, thumbReplies)
      ensures var t := AfterRefresh(s, r, thumbReplies);
        && (r.Replied? && r.success ==>
              |t.page.gallery| == |ImagesOf(r)| == t.page.imageCount
              && (forall i :: 0 <= i < |ImagesOf(r)| ==> t.page.gallery[i].image == ImagesOf(r)[i])
              && (t.page.noImagesShown <==> ImagesOf(r) == []))
        && (!(r.Replied? && r.success) ==>
              t.page == s.page && t.imageCache == s.imageCache && |t.env.requests| == |s.env.requests| + 1)
    {
    }

    /** The state `viewImage(id)` leaves behind. */
    function AfterView(s: State, id: ImageId, r: Reply<ImageData>): State
    {
      var shown := s.(page := s.page.(modalImage := Some(NumKey(id)), downloadTarget := Some(NatToString(id))));
      if NumKey(id) in s.imageCache then shown
      else
        var s1 := s.(env := s.env.Sent(ImageRequest(NumKey(id))));
        match r
        case Replied(ok, _, d) =>
          if ok then s1.(imageCache := s.imageCache[NumKey(id) := d],
                         page := shown.page)
          else s1
        case Threw(_) => s1.(env := s1.env.Notified(Notice(ImageFailedText, ErrorNotice)))
    }

    /** `viewImage`: fetches only on a cache miss, caches a successful
        reply, and opens the modal when data is at hand. */
    method ViewImage(id: ImageId, r: Reply<ImageData>)
      requires Valid()
      modifies this
      ensures Valid()
      ensures St() == AfterView(old(St()), id, r)
      ensures NumKey(id) in old(imageCache) ==> env == old(env) && imageCache == old(imageCache)
    {
      var found := NumKey(id) in imageCache;
      if !found {
        env := env.Sent(ImageRequest(NumKey(id)));
        match r
        case Replied(ok, _, d) =>
          if ok {
            imageCache := imageCache[NumKey(id) := d];
            found := true;
          }
        case Threw(_) =>
          ShowNotification(ImageFailedText, ErrorNotice);
          return;
      }
      if found {
        page := page.(modalImage := Some(NumKey(id)), downloadTarget := Some(NatToString(id)));
      }
    }

    /** The state `downloadImage(key)` leaves behind. */
    function AfterDownload(s: State, key: ImageKey, r: Reply<ImageData>): State
    {
      var name := DownloadFileName(config.diagnosticId, key);
      if key in s.imageCache then s.(env := s.env.Downloaded(name))
      else
        var s1 := s.(env := s.env.Sent(ImageRequest(key)));
        match r
        case Replied(ok, _, _) => if ok then s1.(env := s1.env.Downloaded(name)) else s1
        case Threw(_) => s1.(env := s1.env.Notified(Notice(DownloadFailedText, ErrorNotice)))
    }

    /** `downloadImage`: reads the cache, fetches on a miss, and never
        writes the cache. */
    method DownloadImage(key: ImageKey, r: Reply<ImageData>)
      requires Valid()
      modifies this
      ensures Valid()
      ensures St() == AfterDownload(old(St()), key, r)
      ensures imageCache == old(imageCache)
    {
      var found := key in imageCache;
      if !found {
        env := env.Sent(ImageRequest(key));
        match r
        case Replied(ok, _, _) =>
          found := ok;
        case Threw(_) =>
          ShowNotification(DownloadFailedText, ErrorNotice);
          return;
      }
      if found {
        env := env.Downloaded(DownloadFileName(config.diagnosticId, key));
      }
    }

    /** `downloadCurrentImage`: the id comes back from the button's
        attribute as a string, which never matches a (numeric) cache key,
        so the image is always fetched again. */
    method DownloadCurrentImage(r: Reply<ImageData>)
      requires Valid()
      modifies this
      ensures Valid()
      ensures old(page.downloadTarget).None? || old(page.downloadTarget).value == "" ==> St() == old(St())
      ensures old(page.downloadTarget).Some? && old(page.downloadTarget).value != "" ==>
        St() == AfterDownload(old(St()), StrKey(old(page.downloadTarget).value), r)
        && env.requests == old(env.requests) + [ImageRequest(StrKey(old(page.downloadTarget).value))]
    {
      if page.downloadTarget.Some? && page.downloadTarget.value != "" {
        assert StrKey(page.downloadTarget.value) !in imageCache;
        DownloadImage(StrKey(page.downloadTarget.value), r);
      }
    }

    /** `switchView`: only the view mode changes; nothing is fetched. */
    method SwitchView(viewType: string)
      modifies this
      ensures St() == old(St()).(page := old(page).(viewMode := if viewType == "grid" then GridView else ListView))
    {
      if viewType == "grid" {
        page := page.(viewMode := GridView);
      } else {
        page := page.(viewMode := ListView);
      }
    }

    /** One firing of the polling interval. The status request is not
        awaited, so whether the gallery is refreshed is decided by
        `isCapturing` as it was before the status reply arrived. */
    method PollTick(statusReply: Reply<StatusData>, galleryReply: Reply<ImagesData>, thumbReplies: seq<Reply<ImageData>>)
      requires Valid() && refreshInterval.Some? && ThumbRepliesFit(galleryReply, thumbReplies)
      modifies this
      ensures Valid()
      ensures old(isCapturing) ==> St() == AfterRefresh(AfterStatus(old(St()), statusReply), galleryReply, thumbReplies)
      ensures !old(isCapturing) ==> St() == AfterStatus(old(St()), statusReply)
    {
      var wasCapturing := isCapturing;
      CheckCaptureStatus(statusReply);
      if wasCapturing {
        RefreshGallery(galleryReply, thumbReplies);
      }
    }

    /** `init`: starts the polling interval, then handles the first status
        reply and the first gallery reply. */
    method Init(statusReply: Reply<StatusData>, galleryReply: Reply<ImagesData>, thumbReplies: seq<Reply<ImageData>>)
      requires Valid() && refreshInterval.None? && ThumbRepliesFit(galleryReply, thumbReplies)
      modifies this
      ensures Valid()
      ensures St() == AfterRefresh(AfterStatus(old(St()).(refreshInterval := Some(old(env.nextTimerId)), env := old(env).PollIntervalSet()),
                                               statusReply), galleryReply, thumbReplies)
    {
      StartStatusPolling();
      CheckCaptureStatus(statusReply);
      RefreshGallery(galleryReply, thumbReplies);
    }

    /** `destroy`: no polling interval, no capture-timer handle and an
        empty cache; the capture flags, retry count, page and logs stay. */
    method Destroy()
      requires Valid()
      modifies this
      ensures Valid()
      ensures refreshInterval.None? && env.pollIntervals == {} && captureTimer.None? && imageCache == map[]
      ensures St() == old(St()).(refreshInterval := None, captureTimer := None, imageCache := map[],
                                 env := old(env).(pollIntervals := {},
                                                  captureIntervals := if old(captureTimer).Some? then old(env.captureIntervals) - {old(captureTimer).value}
                                                                      else old(env.captureIntervals)))
    {
      PausePolling();
      StopCaptureTimer();
      imageCache := map[];
    }
  }

  /** Two successful starts with no stop in between (the status poll
      having reported the capture as not running, which shows the start
      button again) leave a capture-timer interval that `destroy` does not
      clear. */
  method OrphanedCaptureTimer(cfg: Config, d: StatusData) returns (c: Controller, orphan: nat)
    requires !d.isRunning
    ensures c.refreshInterval.None? && c.captureTimer.None? && c.env.pollIntervals == {}
    ensures orphan in c.env.captureIntervals
  {
    c := new Controller(cfg);
    c.HandleStartCapture(Replied(true, None, ()), 1000);
    orphan := c.captureTimer.value;
    c.CheckCaptureStatus(Replied(true, None, d));
    assert !c.isCapturing;
    c.HandleStartCapture(Replied(true, None, ()), 2000);
    c.Destroy();
  }
}
