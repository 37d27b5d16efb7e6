/** The parts of a fetched page the scraper reads, as already-extracted
    values. Each field is the text (or list of texts) one `find_all` query of
    the HTML tree returns, in document order. */
module Dom {
  import opened Outcomes

  /** One result row (`tr` of class "dctabrowwhite" or "dctabrowgreen").
      `cells` is the text of every `td` below the row, nested ones included;
      `bold` the text of every `b`; `nested` has one entry per `tr` below the
      row, holding that row's `td` texts. */
  datatype ResultRow = ResultRow(cells: seq<string>, bold: seq<string>, nested: seq<seq<string>>)

  /** One pool table (`table` of class "moduletable_draw"): the text of its
      first `tr`, if it has one, and its result rows. */
  datatype PoolTable = PoolTable(firstRow: Option<string>, rows: seq<ResultRow>)

  /** A category draws page: the text of every "newsheader" block and the
      pool tables. */
  datatype DrawsPage = DrawsPage(headers: seq<string>, tables: seq<PoolTable>)

  /** A "datalink2" link of an event's draws index. */
  datatype Link = Link(title: string, href: string)
}
