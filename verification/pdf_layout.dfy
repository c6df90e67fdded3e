/**
  * The layout skeleton of the PDF renderer. Drawing calls are abstracted away; what remains is the
  * vertical cursor, the page count, the boxes placed on the pages, the "k de N" footer stamped on
  * every page at the end, the scale-to-fit rectangle of a signature image, the "N/A" substitution
  * for empty values and the choice of image format from a data URL.
  *
  * Lengths on the page are integers in tenths of a millimetre (every constant of the renderer is a
  * multiple of 0.1 mm). The document is US Letter, 215.9 mm by 279.4 mm, with a 12 mm margin.
  */
module PdfLayout {
  import opened Wrappers
  import opened Text

  const PageHeight: int := 2794
  const Margin: int := 120
  /** The lowest point a section may reach: the page height less the margin. */
  const ContentBottom: int := PageHeight - Margin

  /** A box drawn on `page` whose top edge is at `top` and that is `height` tall. */
  datatype Box = Box(page: nat, top: int, height: nat)
  {
    function Bottom(): int { top + height }
  }

  /** Every box ends at or above height `limit` of its page. */
  predicate AllAbove(boxes: seq<Box>, limit: int)
  {
    forall i :: 0 <= i < |boxes| ==> boxes[i].Bottom() <= limit
  }

  /** Appending a box keeps every box above `limit` exactly when the new one ends above it. */
  lemma AboveAppend(boxes: seq<Box>, b: Box, limit: int)
    ensures AllAbove(boxes + [b], limit) <==> AllAbove(boxes, limit) && b.Bottom() <= limit
  {
    var s := boxes + [b];
    assert s[|boxes|] == b;
    if AllAbove(boxes, limit) && b.Bottom() <= limit {
      forall i | 0 <= i < |s| ensures s[i].Bottom() <= limit {
        if i < |boxes| { assert s[i] == boxes[i]; }
      }
    }
    if AllAbove(s, limit) {
      forall i | 0 <= i < |boxes| ensures boxes[i].Bottom() <= limit {
        assert s[i] == boxes[i];
      }
    }
  }

  /** Every box ends above the bottom margin of its page. */
  predicate AllFit(boxes: seq<Box>)
  {
    AllAbove(boxes, ContentBottom)
  }

  /** Every box ends on its page rather than past the page's bottom edge. */
  predicate AllOnPage(boxes: seq<Box>)
  {
    AllAbove(boxes, PageHeight)
  }

  /** Where a section that reserves `reserve` starts when the cursor is at `y`. */
  function SectionTop(y: int, reserve: nat): int
  {
    if y + reserve <= ContentBottom then y else Margin
  }

  /** The footer stamped on page `page` of a document of `total` pages. */
  datatype Stamp = Stamp(page: nat, total: nat)
  {
    /** The footer's text, `${page} de ${total}`. */
    function Label(): string
    {
      NatToString(page) + " de " + NatToString(total)
    }
  }

  /**
    * A footer reads back as its page number, the word "de" between spaces, and the page count:
    * distinct pages of a document never share a footer.
    */
  lemma LabelReadsBack(st: Stamp)
    ensures var k := |NatToString(st.page)|; var text := st.Label();
      && k + 4 <= |text| && text[k..k + 4] == " de "
      && AllDigits(text[..k]) && DecimalValue(text[..k]) == st.page
      && AllDigits(text[k + 4..]) && DecimalValue(text[k + 4..]) == st.total
  {
    var k := |NatToString(st.page)|;
    var text := st.Label();
    assert text[..k] == NatToString(st.page);
    assert text[k + 4..] == NatToString(st.total);
    DecimalRoundTrip(st.page);
    DecimalRoundTrip(st.total);
  }

  /** Pages 1 to `pages`, in order, each stamped once with the final page count. */
  predicate StampedOnce(footers: seq<Stamp>, pages: nat)
  {
    |footers| == pages && forall i :: 0 <= i < |footers| ==> footers[i] == Stamp(i + 1, pages)
  }

  /** The document under construction: cursor, page count, placed boxes and footers. */
  class Document {
    var y: int
    var pages: nat
    var boxes: seq<Box>
    var footers: seq<Stamp>

    /** The cursor never rises above the top margin, and every box lies on an existing page. */
    predicate Valid()
      reads this
    {
      && 1 <= pages && Margin <= y
      && forall i :: 0 <= i < |boxes| ==> 1 <= boxes[i].page <= pages
    }

    /** A new one-page document with the cursor at the top margin. */
    constructor ()
      ensures Valid()
      ensures y == Margin && pages == 1 && boxes == [] && footers == []
    {
      y := Margin;
      pages := 1;
      boxes := [];
      footers := [];
    }

    /**
      * `ensureRoom(height)`: when the section fits above the bottom margin nothing changes;
      * otherwise exactly one page is added and the cursor returns to the top margin.
      */
    method EnsureRoom(height: nat)
      requires Valid()
      modifies this`y, this`pages
      ensures Valid()
      ensures old(y) + height <= ContentBottom ==> y == old(y) && pages == old(pages)
      ensures old(y) + height > ContentBottom ==> y == Margin && pages == old(pages) + 1
    {
      if y + height <= ContentBottom {
        return;
      }
      pages := pages + 1;
      y := Margin;
    }

    /** `y += delta`. */
    method Advance(delta: nat)
      requires Valid()
      modifies this`y
      ensures Valid()
      ensures y == old(y) + delta
    {
      y := y + delta;
    }

    /** Draws a box of the given height at the cursor on the current (last) page. */
    method Draw(height: nat)
      requires Valid()
      modifies this`boxes
      ensures Valid()
      ensures boxes == old(boxes) + [Box(pages, y, height)]
      ensures forall limit :: AllAbove(boxes, limit) <==> AllAbove(old(boxes), limit) && y + height <= limit
    {
      ghost var before := boxes;
      boxes := boxes + [Box(pages, y, height)];
      forall limit ensures AllAbove(boxes, limit) <==> AllAbove(before, limit) && y + height <= limit {
        AboveAppend(before, Box(pages, y, height), limit);
      }
    }

    /**
      * A row of `columns` (one or two) field boxes 16 mm tall at the cursor, then `y += advance`.
      */
    method FieldRow(columns: nat, advance: nat)
      requires Valid() && 1 <= columns <= 2
      modifies this`y, this`boxes
      ensures Valid()
      ensures y == old(y) + advance
      ensures forall limit :: AllAbove(boxes, limit) <==> AllAbove(old(boxes), limit) && old(y) + 160 <= limit
    {
      Draw(160);
      if columns == 2 {
        Draw(160);
      }
      Advance(advance);
    }

    /** The header band (44 mm) and the title band (10 mm), then the introduction of `introLines` lines. */
    method Header(introLines: nat)
      requires Valid()
      modifies this`y, this`boxes
      ensures Valid()
      ensures y == old(y) + 670 + introLines * 40
      ensures forall limit :: AllAbove(boxes, limit) <==> AllAbove(old(boxes), limit) && old(y) + 600 <= limit
    {
      Draw(440);
      Advance(500);
      Draw(100);
      Advance(140);
      // Four millimetres per line of the introduction, plus three.
      Advance(introLines * 40 + 30);
    }

    /**
      * The personal-data section after `ensureRoom(reserve)`: a title band, four rows of two
      * fields, the first signature box and the row of ID number and issuer. It ends 129 mm below
      * where it starts and moves the cursor 135 mm down.
      */
    method PersonalSection(reserve: nat)
      requires Valid()
      modifies this`y, this`pages, this`boxes
      ensures Valid()
      ensures pages == old(pages) + (if old(y) + reserve <= ContentBottom then 0 else 1)
      ensures y == SectionTop(old(y), reserve) + 1350
      ensures forall limit :: AllAbove(boxes, limit) <==>
        AllAbove(old(boxes), limit) && SectionTop(old(y), reserve) + 1290 <= limit
    {
      EnsureRoom(reserve);
      Draw(70);
      Advance(100);
      FieldRow(2, 190);
      FieldRow(2, 190);
      FieldRow(2, 190);
      FieldRow(2, 190);
      Draw(240);
      Advance(270);
      FieldRow(2, 220);
    }

    /**
      * The authorisation section after `ensureRoom(reserve)`: a title band, the name and ID row,
      * the issuer, the authorisation text box, the second signature box, the second ID row and the
      * city-and-date field. It ends 145 mm below where it starts.
      */
    method AuthorizationSection(reserve: nat)
      requires Valid()
      modifies this`y, this`pages, this`boxes
      ensures Valid()
      ensures pages == old(pages) + (if old(y) + reserve <= ContentBottom then 0 else 1)
      ensures forall limit :: AllAbove(boxes, limit) <==>
        AllAbove(old(boxes), limit) && SectionTop(old(y), reserve) + 1450 <= limit
    {
      EnsureRoom(reserve);
      Draw(70);
      Advance(100);
      FieldRow(2, 190);
      FieldRow(1, 190);
      Draw(320);
      Advance(350);
      Draw(240);
      Advance(270);
      FieldRow(2, 190);
      FieldRow(1, 0);
    }

    /** The footer pass: every page from 1 to the final count is stamped with "k de N". */
    method StampFooters()
      requires Valid() && footers == []
      modifies this`footers
      ensures Valid()
      ensures StampedOnce(footers, pages)
    {
      var totalPages := pages;
      var pageNumber := 1;
      while pageNumber <= totalPages
        invariant 1 <= pageNumber <= totalPages + 1
        invariant |footers| == pageNumber - 1
        invariant forall i :: 0 <= i < |footers| ==> footers[i] == Stamp(i + 1, totalPages)
      {
        footers := footers + [Stamp(pageNumber, totalPages)];
        pageNumber := pageNumber + 1;
      }
    }
  }

  /** The room reserved before each of the two sections (personal data, authorisation). */
  datatype Reserves = Reserves(personal: nat, authorization: nat)

  /** The reserves the renderer asks for: 80 mm and 98 mm. */
  const WrittenReserves: Reserves := Reserves(800, 980)

  /** The sections' real heights from the cursor to the bottom of their last box: 129 mm and 145 mm. */
  const SectionHeights: Reserves := Reserves(1290, 1450)

  /**
    * The renderer's sequence of sections, with the two `ensureRoom` reserves as parameters and the
    * number of lines the introduction wraps to as input. The footers are stamped once per page.
    * With the written reserves the document always has two pages, stays above the bottom margin
    * exactly when the introduction has at most 14 lines, and stays on the page exactly when it has
    * at most 17. With reserves covering the sections it always stays above the margin.
    */
  method Compose(introLines: nat, reserves: Reserves) returns (pages: nat, boxes: seq<Box>, footers: seq<Stamp>)
    ensures 1 <= pages
    ensures forall i :: 0 <= i < |boxes| ==> 1 <= boxes[i].page <= pages
    ensures StampedOnce(footers, pages)
    ensures reserves == WrittenReserves ==>
      && pages == 2
      && (AllFit(boxes) <==> introLines <= 14)
      && (AllOnPage(boxes) <==> introLines <= 17)
    ensures reserves.personal >= SectionHeights.personal && reserves.authorization >= SectionHeights.authorization
      ==> AllFit(boxes)
    ensures reserves == SectionHeights ==> pages == (if introLines <= 14 then 2 else 3)
  {
    var doc := new Document();
    doc.Header(introLines);
    doc.PersonalSection(reserves.personal);
    doc.AuthorizationSection(reserves.authorization);
    doc.StampFooters();
    pages, boxes, footers := doc.pages, doc.boxes, doc.footers;
  }

  /**
    * The document as the renderer lays it out: two pages footed "1 de 2" and "2 de 2", above the
    * bottom margin exactly when the introduction has at most 14 lines, and entirely on the page
    * exactly when it has at most 17.
    */
  method GeneratePdfAsWritten(introLines: nat) returns (pages: nat, boxes: seq<Box>, footers: seq<Stamp>)
    ensures pages == 2 && StampedOnce(footers, 2)
    ensures |footers| == 2 && footers[0].Label() == "1 de 2" && footers[1].Label() == "2 de 2"
    ensures AllFit(boxes) <==> introLines <= 14
    ensures AllOnPage(boxes) <==> introLines <= 17
  {
    pages, boxes, footers := Compose(introLines, WrittenReserves);
  }

  /**
    * An introduction of 18 lines pushes a box past the bottom edge of the page under the written
    * reserves (the "C.C. No" row of the personal-data section ends at 280.0 mm on a 279.4 mm page).
    */
  method OverflowWitness() returns (boxes: seq<Box>)
    ensures exists i :: 0 <= i < |boxes| && boxes[i].Bottom() > PageHeight
  {
    var pages, footers;
    pages, boxes, footers := GeneratePdfAsWritten(18);
  }

  /**
    * The document with each section's reserve equal to its height: every box ends above the bottom
    * margin whatever the introduction's length, and a third page appears when the introduction
    * leaves too little room for the personal-data section.
    */
  method GeneratePdf(introLines: nat) returns (pages: nat, boxes: seq<Box>, footers: seq<Stamp>)
    ensures AllFit(boxes)
    ensures pages == (if introLines <= 14 then 2 else 3)
    ensures StampedOnce(footers, pages)
  {
    pages, boxes, footers := Compose(introLines, SectionHeights);
  }

  // ---------------------------------------------------------------------------------------------
  // Field values and signature images

  /** `value(v)`: a value with a non-blank character is shown as is; a blank one as "N/A". */
  function DisplayValue(v: string): (r: string)
    ensures !AllWhitespace(r)
    ensures !AllWhitespace(v) ==> r == v
    ensures r == v || r == "N/A"
  {
    assert !IsJsWhitespace("N/A"[0]);
    if Trim(v) != "" then v else "N/A"
  }

  /** The raster formats the renderer embeds. */
  datatype ImageFormat = Jpeg | Png

  /** `getImageFormat`: JPEG for a `data:image/jpeg` or `data:image/jpg` URL, PNG for anything else. */
  function GetImageFormat(imageData: string): (f: ImageFormat)
    ensures StartsWith(imageData, "data:image/jpeg") ==> f == Jpeg
    ensures StartsWith(imageData, "data:image/png") ==> f == Png
  {
    assert StartsWith(imageData, "data:image/png") ==> imageData[11] == 'p';
    if StartsWith(imageData, "data:image/jpeg") || StartsWith(imageData, "data:image/jpg") then Jpeg else Png
  }

  /** The data URL a file reader produces for a file of type `mime`. */
  function DataUrl(mime: string, payload: string): string
  {
    "data:" + mime + ";base64," + payload
  }

  /**
    * The format chosen for an uploaded image follows the file's MIME type: JPEG exactly when the
    * type starts with `image/jpeg` or `image/jpg`, PNG for every other type.
    */
  lemma FormatFollowsMimeType(mime: string, payload: string)
    ensures GetImageFormat(DataUrl(mime, payload)) == Jpeg
      <==> StartsWith(mime, "image/jpeg") || StartsWith(mime, "image/jpg")
  {
    DataUrlPrefix(mime, payload, "image/jpeg");
    DataUrlPrefix(mime, payload, "image/jpg");
    assert "data:" + "image/jpeg" == "data:image/jpeg";
    assert "data:" + "image/jpg" == "data:image/jpg";
  }

  /** A data URL starts with `data:` + `p` exactly when its type starts with `p`, for `p` without `;`. */
  lemma DataUrlPrefix(mime: string, payload: string, p: string)
    requires ';' !in p
    ensures StartsWith(DataUrl(mime, payload), "data:" + p) <==> StartsWith(mime, p)
  {
    var s := DataUrl(mime, payload);
    assert s == "data:" + (mime + (";base64," + payload));
    var rest := mime + (";base64," + payload);
    assert s[5..] == rest;
    if |p| <= |mime| {
      assert rest[..|p|] == mime[..|p|];
      if StartsWith(s, "data:" + p) {
        assert s[5..5 + |p|] == p;
      }
    } else {
      assert rest[|mime|] == ';';
    }
  }

  /** The outcome of loading a signature image: failure, or the natural and plain dimensions. */
  datatype ImageLoad = LoadFailed | Loaded(naturalWidth: nat, naturalHeight: nat, width: nat, height: nat)

  /** `natural || plain || 1`: a zero dimension falls back to the next one, and finally to 1. */
  function Dimension(natural: nat, plain: nat): (d: nat)
    ensures d >= 1
    ensures d == natural || d == plain || d == 1
    ensures natural != 0 ==> d == natural
    ensures natural == 0 && plain != 0 ==> d == plain
  {
    if natural != 0 then natural else if plain != 0 then plain else 1
  }

  /** Where an image is drawn, in millimetres, and in which format. */
  datatype Placement = Placement(format: ImageFormat, x: real, y: real, w: real, h: real)

  /**
    * `drawSignatureField`'s image placement inside the box at (`x`, `top`) of size `w` by `h`:
    * nothing without image data or when the image does not load; otherwise the image scaled to
    * fit the area below the label (`w - 6` by `h - 9`), filling it in one dimension, keeping its
    * aspect ratio, centred horizontally in the box and vertically in the area below the label.
    */
  method PlaceSignature(imageData: string, image: ImageLoad, x: real, top: real, w: real, h: real)
    returns (placed: Option<Placement>)
    requires w > 6.0 && h > 9.0
    ensures placed.Some? <==> imageData != "" && image.Loaded?
    ensures placed.Some? ==>
      var p := placed.value;
      var imgW := Dimension(image.naturalWidth, image.width) as real;
      var imgH := Dimension(image.naturalHeight, image.height) as real;
      && p.format == GetImageFormat(imageData)
      && 0.0 < p.w <= w - 6.0 && 0.0 < p.h <= h - 9.0
      && (p.w == w - 6.0 || p.h == h - 9.0)
      && p.w * imgH == p.h * imgW
      && p.x - x == (x + w) - (p.x + p.w)
      && p.y - (top + 6.0) == (top + 6.0 + (h - 9.0)) - (p.y + p.h)
  {
    if imageData == "" {
      return None;
    }
    match image
    case LoadFailed =>
      return None;
    case Loaded(naturalWidth, naturalHeight, width, height) =>
      var fmt := GetImageFormat(imageData);
      var maxW := w - 6.0;
      var maxH := h - 9.0;
      var imgW := Dimension(naturalWidth, width) as real;
      var imgH := Dimension(naturalHeight, height) as real;
      var drawW, drawH := FitImage(imgW, imgH, maxW, maxH);
      var drawX := x + (w - drawW) / 2.0;
      var drawY := top + 6.0 + (maxH - drawH) / 2.0;
      placed := Some(Placement(fmt, drawX, drawY, drawW, drawH));
  }

  /**
    * The scale-to-fit step: an image of `imgW` by `imgH` shrinks or grows to fit `maxW` by `maxH`,
    * filling the width when it is relatively wider than the area and the height otherwise.
    */
  method FitImage(imgW: real, imgH: real, maxW: real, maxH: real) returns (drawW: real, drawH: real)
    requires imgW > 0.0 && imgH > 0.0 && maxW > 0.0 && maxH > 0.0
    ensures 0.0 < drawW <= maxW && 0.0 < drawH <= maxH
    ensures drawW == maxW || drawH == maxH
    ensures drawW * imgH == drawH * imgW
  {
    var imgRatio := imgW / imgH;
    var boxRatio := maxW / maxH;
    drawW := maxW;
    drawH := maxH;
    if imgRatio > boxRatio {
      drawH := maxW / imgRatio;
      WiderThanBox(imgW, imgH, maxW, maxH);
    } else {
      drawW := maxH * imgRatio;
      NarrowerThanBox(imgW, imgH, maxW, maxH);
    }
  }

  /** An image relatively wider than the box fills the box's width; its height then fits and keeps the ratio. */
  lemma WiderThanBox(imgW: real, imgH: real, maxW: real, maxH: real)
    requires imgW > 0.0 && imgH > 0.0 && maxW > 0.0 && maxH > 0.0
    requires imgW / imgH > maxW / maxH
    ensures 0.0 < maxW / (imgW / imgH) <= maxH
    ensures maxW * imgH == (maxW / (imgW / imgH)) * imgW
  {
    var r := imgW / imgH;
    assert r * imgH == imgW;
    assert r > 0.0;
    assert r * maxH > maxW by {
      assert (maxW / maxH) * maxH == maxW;
    }
    var d := maxW / r;
    assert d * r == maxW;
    assert d * r < maxH * r;
    assert d * imgW == d * (r * imgH) == (d * r) * imgH;
  }

  /** An image relatively no wider than the box fills the box's height; its width then fits and keeps the ratio. */
  lemma NarrowerThanBox(imgW: real, imgH: real, maxW: real, maxH: real)
    requires imgW > 0.0 && imgH > 0.0 && maxW > 0.0 && maxH > 0.0
    requires imgW / imgH <= maxW / maxH
    ensures 0.0 < maxH * (imgW / imgH) <= maxW
    ensures (maxH * (imgW / imgH)) * imgH == maxH * imgW
  {
    var r := imgW / imgH;
    assert r * imgH == imgW;
    assert r > 0.0;
    assert maxH * r <= maxH * (maxW / maxH);
    assert (maxW / maxH) * maxH == maxW;
    assert (maxH * r) * imgH == maxH * (r * imgH);
  }
}
