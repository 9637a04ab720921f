/**
 * The page writer of the index handler of src/server/routes.rs: a fixed
 * header, then per day a heading with the date and one list entry per item.
 * Nothing written into the page is escaped; the model keeps that.
 *
 * The date's text (`NaiveDate`'s `Display`) is the parameter `dateText`.
 */
module RoutesRender {
  import opened Wrappers
  import opened Fetch
  import opened RoutesDays

  /** The lines of the page text written before the first day: document head, style sheet, opening of the list. */
  const HeaderLines: seq<string> := [
    "        <!DOCTYPE html>",
    "        <html>",
    "            <head>",
    "                <meta charset=\"utf-8\">",
    "                <style>",
    "                    img {",
    "                        height: 1rem;",
    "                        width: 1rem;",
    "                        vertical-align: middle;",
    "                    }",
    "                    .spacer {",
    "                        margin-left: 1rem;",
    "                    }",
    "                    .highlight {",
    "                        background-color: aquamarine;",
    "                    }",
    "                    a:visited {",
    "                        color: color-mix(in lch, rgb(85, 26, 139), #fff)",
    "                    }",
    "                </style>",
    "            </head>",
    "            <body>",
    "                <ul>"
  ]

  function JoinLines(lines: seq<string>): string
  {
    if lines == [] then "" else lines[0] + "\n" + JoinLines(lines[1..])
  }

  /** The header as routes.rs writes it: a line break, the lines, and the indentation before the closing quote. */
  const Header: string := "\n" + JoinLines(HeaderLines) + "    "

  const SpacerTag: string := "<span class=\"spacer\">&nbsp;</spacer>"

  // ---------------------------------------------------------------------
  // Decimal numerals, as `format!("{}", n)` writes a `usize`

  function DigitChar(d: nat): char
    requires d < 10
  {
    ('0' as int + d) as char
  }

  predicate IsDigit(c: char)
  {
    '0' <= c <= '9'
  }

  predicate AllDigits(s: string)
  {
    forall i :: 0 <= i < |s| ==> IsDigit(s[i])
  }

  /** The shortest decimal numeral of `n`: at least one digit and no leading zero. */
  function NatToDecimal(n: nat): (s: string)
    ensures |s| >= 1 && AllDigits(s)
    ensures s[0] == '0' ==> n == 0 && |s| == 1
    decreases n
  {
    if n < 10 then [DigitChar(n)] else NatToDecimal(n / 10) + [DigitChar(n % 10)]
  }

  /** The value of a numeral, read back most significant digit first. */
  function DecimalValue(s: string): nat
    requires AllDigits(s)
  {
    if s == [] then 0
    else DecimalValue(s[..|s| - 1]) * 10 + (s[|s| - 1] as int - '0' as int)
  }

  lemma {:induction false} DecimalRoundTrip(n: nat)
    ensures DecimalValue(NatToDecimal(n)) == n
    decreases n
  {
    if n >= 10 {
      DecimalRoundTrip(n / 10);
      var s := NatToDecimal(n);
      assert s[..|s| - 1] == NatToDecimal(n / 10);
    }
  }

  // ---------------------------------------------------------------------
  // One list entry

  /** The entry's own thumbnail, else its feed's logo. */
  function ImageUrl(i: ItemWithFeed): Option<string>
  {
    i.item.thumbnailUrl.Or(i.feed.logoUrl)
  }

  function Thumbnail(i: ItemWithFeed): string
  {
    if ImageUrl(i).Some? then "<img src=\"" + ImageUrl(i).value + "\"/> " else ""
  }

  function Spacer(i: ItemWithFeed): string
  {
    if ImageUrl(i).Some? then SpacerTag else ""
  }

  function CountSuffix(n: nat): string
  {
    if n > 1 then " (" + NatToDecimal(n) + "x)" else ""
  }

  function SummaryHtml(i: ItemWithFeed): string
  {
    if i.item.summary.Some? then "<br/>" + Spacer(i) + "<sup>\U{2514} " + i.item.summary.value + "</sup>" else ""
  }

  function ClassName(i: ItemWithFeed): string
  {
    if i.highlighted then "highlight" else ""
  }

  function ItemHtml(i: ItemWithFeed): string
  {
    "<li>" + Thumbnail(i) + "<a class=\"" + ClassName(i) + "\" href=\"" + i.item.href + "\">" +
    i.item.title + "</a>" + CountSuffix(i.count) + SummaryHtml(i) + "</li>"
  }

  function ItemsHtml(items: seq<ItemWithFeed>): string
  {
    if items == [] then "" else ItemsHtml(items[..|items| - 1]) + ItemHtml(items[|items| - 1])
  }

  function DayHeading(day: Day, dateText: int -> string): string
  {
    "<h1>" + dateText(day.date) + "</h1>"
  }

  function DayHtml(day: Day, dateText: int -> string): string
  {
    DayHeading(day, dateText) + ItemsHtml(day.items)
  }

  function DaysHtml(days: seq<Day>, dateText: int -> string): string
  {
    if days == [] then "" else DaysHtml(days[..|days| - 1], dateText) + DayHtml(days[|days| - 1], dateText)
  }

  /** The whole response body. */
  function Page(days: seq<Day>, dateText: int -> string): string
  {
    Header + DaysHtml(days, dateText)
  }

  // ---------------------------------------------------------------------
  // The writing loop

  lemma AppendEmpty(x: string)
    ensures x + "" == x
  {
  }

  lemma AppendAssoc(x: string, y: string, z: string)
    ensures (x + y) + z == x + (y + z)
  {
  }

  /** The loops of routes.rs that push the header, each day's heading and each entry onto the page. */
  method Render(days: seq<Day>, dateText: int -> string) returns (html: string)
    ensures html == Page(days, dateText)
  {
    html := PushDays(Header, days, dateText);
  }

  /** Push every day onto the page text `start`: its heading, then its entries. */
  method PushDays(start: string, days: seq<Day>, dateText: int -> string) returns (html: string)
    ensures html == start + DaysHtml(days, dateText)
  {
    html := start;
    AppendEmpty(start);
    var d := 0;
    while d < |days|
      invariant 0 <= d <= |days|
      invariant html == start + DaysHtml(days[..d], dateText)
    {
      var day := days[d];
      ghost var before := html;
      var heading := "<h1>" + dateText(day.date) + "</h1>";
      html := PushItems(html + heading, day.items);
      AppendAssoc(before, DayHeading(day, dateText), ItemsHtml(day.items));
      AppendAssoc(start, DaysHtml(days[..d], dateText), DayHtml(day, dateText));
      assert days[..d + 1][..d] == days[..d];
      d := d + 1;
    }
    assert days[..d] == days;
  }

  /** Push the entries of one day onto the page text `start`. */
  method PushItems(start: string, items: seq<ItemWithFeed>) returns (html: string)
    ensures html == start + ItemsHtml(items)
  {
    html := start;
    AppendEmpty(start);
    var j := 0;
    while j < |items|
      invariant 0 <= j <= |items|
      invariant html == start + ItemsHtml(items[..j])
    {
      var entry := ItemEntry(items[j]);
      AppendAssoc(start, ItemsHtml(items[..j]), entry);
      assert items[..j + 1][..j] == items[..j];
      html := html + entry;
      j := j + 1;
    }
    assert items[..j] == items;
  }

  /** The body of the entry loop: pick the image, the count text and the summary line, and format the entry. */
  method ItemEntry(i: ItemWithFeed) returns (entry: string)
    ensures entry == ItemHtml(i)
  {
    var thumbnail, spacer := "", "";
    var image := i.item.thumbnailUrl.Or(i.feed.logoUrl);
    if image.Some? {
      thumbnail := "<img src=\"" + image.value + "\"/> ";
      spacer := SpacerTag;
    }
    var itemCount := "";
    if i.count > 1 {
      itemCount := " (" + NatToDecimal(i.count) + "x)";
    }
    var summary := "";
    if i.item.summary.Some? {
      summary := "<br/>" + spacer + "<sup>\U{2514} " + i.item.summary.value + "</sup>";
    }
    entry := "<li>" + thumbnail + "<a class=\"" + (if i.highlighted then "highlight" else "") +
             "\" href=\"" + i.item.href + "\">" + i.item.title + "</a>" + itemCount + summary + "</li>";
  }

  // ---------------------------------------------------------------------
  // What the page says

  /** The page is the pages of its parts, in order: days are written one after another. */
  lemma {:induction false} DaysHtmlAppend(a: seq<Day>, b: seq<Day>, dateText: int -> string)
    ensures DaysHtml(a + b, dateText) == DaysHtml(a, dateText) + DaysHtml(b, dateText)
    decreases |b|
  {
    if b == [] {
      assert a + b == a;
      AppendEmpty(DaysHtml(a, dateText));
    } else {
      var n := |b| - 1;
      assert (a + b)[..|a + b| - 1] == a + b[..n];
      assert (a + b)[|a + b| - 1] == b[n];
      DaysHtmlAppend(a, b[..n], dateText);
      AppendAssoc(DaysHtml(a, dateText), DaysHtml(b[..n], dateText), DayHtml(b[n], dateText));
    }
  }

  /** The text of the count after the link reads back as the count, and appears only for repeats. */
  lemma CountSuffixReadsBack(n: nat)
    ensures CountSuffix(n) == "" <==> n <= 1
    ensures n > 1 ==> var s := CountSuffix(n);
              |s| >= 5 && s[..2] == " (" && s[|s| - 2..] == "x)" &&
              AllDigits(s[2..|s| - 2]) && DecimalValue(s[2..|s| - 2]) == n
  {
    if n > 1 {
      DecimalRoundTrip(n);
      var s := CountSuffix(n);
      assert s[2..|s| - 2] == NatToDecimal(n);
    }
  }

  /** The image is the entry's thumbnail when it has one, else its feed's logo, else none. */
  lemma ImagePreference(i: ItemWithFeed)
    ensures i.item.thumbnailUrl.Some? ==> ImageUrl(i) == i.item.thumbnailUrl
    ensures i.item.thumbnailUrl.None? ==> ImageUrl(i) == i.feed.logoUrl
    ensures Thumbnail(i) == "" <==> i.item.thumbnailUrl.None? && i.feed.logoUrl.None?
  {
  }

  /** The summary line is there exactly when the entry has a summary, indented only after an image. */
  lemma SummaryLayout(i: ItemWithFeed)
    ensures SummaryHtml(i) == "" <==> i.item.summary.None?
    ensures i.item.summary.Some? && Thumbnail(i) == "" ==>
              SummaryHtml(i) == "<br/><sup>\U{2514} " + i.item.summary.value + "</sup>"
    ensures i.item.summary.Some? && Thumbnail(i) != "" ==>
              SummaryHtml(i) == "<br/>" + SpacerTag + "<sup>\U{2514} " + i.item.summary.value + "</sup>"
  {
  }

  /** The link carries the highlight class exactly for highlighted entries. */
  lemma HighlightClass(i: ItemWithFeed)
    ensures ClassName(i) == "highlight" <==> i.highlighted
    ensures !i.highlighted ==> ClassName(i) == ""
  {
  }
}
