/** The renderer's loops: a string buffer that every row of a section is appended to. */
module ReportRender {
  import opened Page
  import opened Report

  lemma PrintBoth(a: Node, b: Node, source: Source)
    ensures Serialize(Both(a, b), source) == Serialize(a, source) + Serialize(b, source)
  {
  }

  lemma Append(html: string, a: string, b: string)
    ensures html + a + b == html + (a + b)
  {
  }

  method RenderPlanItems(html: string, rows: seq<RowShape>, source: Source) returns (out: string)
    ensures out == html + Serialize(PlanItems(FirstThree(rows)), source)
  {
    out := html;
    var first := FirstThree(rows);
    for n := 0 to |first|
      invariant out == html + Serialize(PlanItems(first[..n]), source)
    {
      assert first[..n + 1][..n] == first[..n];
      var item := PlanItem(first[n], n + 1);
      PrintBoth(PlanItems(first[..n]), item, source);
      Append(html, Serialize(PlanItems(first[..n]), source), Serialize(item, source));
      out := out + Serialize(item, source);
    }
    assert first[..|first|] == first;
  }

  method RenderFindings(html: string, rows: seq<RowShape>, bucket: Bucket, source: Source) returns (out: string)
    ensures out == html + Serialize(Findings(rows, bucket), source)
  {
    out := html;
    for n := 0 to |rows|
      invariant out == html + Serialize(Findings(rows[..n], bucket), source)
    {
      assert rows[..n + 1][..n] == rows[..n];
      var finding := FindingPart(rows[n], bucket, n + 1);
      PrintBoth(Findings(rows[..n], bucket), finding, source);
      Append(html, Serialize(Findings(rows[..n], bucket), source), Serialize(finding, source));
      out := out + Serialize(finding, source);
    }
    assert rows[..|rows|] == rows;
  }

  method RenderInventoryItems(html: string, count: nat, source: Source) returns (out: string)
    ensures out == html + PrintProse(InventoryItems(count), source)
  {
    out := html;
    for n := 0 to count
      invariant out == html + PrintProse(InventoryItems(n), source)
    {
      var item := Block(ListItem, [], Text(TitleOf(Noting, n + 1)));
      Append(html, PrintProse(InventoryItems(n), source), PrintProse(item, source));
      out := out + PrintProse(item, source);
    }
  }
}
