/** The separation facts the literal phase needs for the colour of the
    configuration table, `#221FBB`, worked out on the literal strings: a
    copy of a black spelling cannot start inside a replacement text, and a
    replacement text cannot start strictly inside a black spelling. */
module SeparationFacts {
  import opened Text
  import opened Recolor

  const TableFillAttr: string := "fill=\"#221FBB\""
  const TableFillStyle: string := "style=\"fill:#221FBB\""

  lemma AttrExcludesFillHex6()
    ensures NoneAgreeFrom(TableFillAttr, 0, FillHex6)
  {
    assert NoneAgreeFrom(TableFillAttr, 12, FillHex6);
    assert NoneAgreeFrom(TableFillAttr, 8, FillHex6);
    assert NoneAgreeFrom(TableFillAttr, 4, FillHex6);
    assert NoneAgreeFrom(TableFillAttr, 1, FillHex6);
    assert !AgreeAt(TableFillAttr, 7, FillHex6, 7);
    assert !AgreeAt(TableFillAttr, 4, FillHex6, 4);
    assert !AgreeAt(TableFillAttr, 0, FillHex6, 0);
  }

  lemma FillHex6ExcludesAttr()
    ensures NoneAgreeFrom(FillHex6, 1, TableFillAttr)
  {
    assert NoneAgreeFrom(FillHex6, 13, TableFillAttr);
    assert NoneAgreeFrom(FillHex6, 9, TableFillAttr);
    assert NoneAgreeFrom(FillHex6, 5, TableFillAttr);
  }

  lemma StyleExcludesFillHex6()
    ensures NoneAgreeFrom(TableFillStyle, 0, FillHex6)
  {
    assert NoneAgreeFrom(TableFillStyle, 16, FillHex6);
    assert NoneAgreeFrom(TableFillStyle, 12, FillHex6);
    assert NoneAgreeFrom(TableFillStyle, 8, FillHex6);
    assert !AgreeAt(TableFillStyle, 11, FillHex6, 4);
    assert !AgreeAt(TableFillStyle, 7, FillHex6, 0);
    assert NoneAgreeFrom(TableFillStyle, 4, FillHex6);
  }

  lemma FillHex6ExcludesStyle()
    ensures NoneAgreeFrom(FillHex6, 1, TableFillStyle)
  {
    assert NoneAgreeFrom(FillHex6, 13, TableFillStyle);
    assert NoneAgreeFrom(FillHex6, 9, TableFillStyle);
    assert NoneAgreeFrom(FillHex6, 5, TableFillStyle);
  }

  lemma AttrExcludesFillHex3()
    ensures NoneAgreeFrom(TableFillAttr, 0, FillHex3)
  {
    assert NoneAgreeFrom(TableFillAttr, 12, FillHex3);
    assert NoneAgreeFrom(TableFillAttr, 8, FillHex3);
    assert NoneAgreeFrom(TableFillAttr, 4, FillHex3);
    assert NoneAgreeFrom(TableFillAttr, 1, FillHex3);
    assert !AgreeAt(TableFillAttr, 7, FillHex3, 7);
    assert !AgreeAt(TableFillAttr, 4, FillHex3, 4);
    assert !AgreeAt(TableFillAttr, 0, FillHex3, 0);
  }

  lemma FillHex3ExcludesAttr()
    ensures NoneAgreeFrom(FillHex3, 1, TableFillAttr)
  {
    assert NoneAgreeFrom(FillHex3, 9, TableFillAttr);
    assert NoneAgreeFrom(FillHex3, 5, TableFillAttr);
  }

  lemma StyleExcludesFillHex3()
    ensures NoneAgreeFrom(TableFillStyle, 0, FillHex3)
  {
    assert NoneAgreeFrom(TableFillStyle, 16, FillHex3);
    assert NoneAgreeFrom(TableFillStyle, 12, FillHex3);
    assert NoneAgreeFrom(TableFillStyle, 8, FillHex3);
    assert !AgreeAt(TableFillStyle, 11, FillHex3, 4);
    assert !AgreeAt(TableFillStyle, 7, FillHex3, 0);
    assert NoneAgreeFrom(TableFillStyle, 4, FillHex3);
  }

  lemma FillHex3ExcludesStyle()
    ensures NoneAgreeFrom(FillHex3, 1, TableFillStyle)
  {
    assert NoneAgreeFrom(FillHex3, 9, TableFillStyle);
    assert NoneAgreeFrom(FillHex3, 5, TableFillStyle);
  }

  lemma AttrExcludesFillBlack()
    ensures NoneAgreeFrom(TableFillAttr, 0, FillBlack)
  {
    assert NoneAgreeFrom(TableFillAttr, 12, FillBlack);
    assert NoneAgreeFrom(TableFillAttr, 8, FillBlack);
    assert NoneAgreeFrom(TableFillAttr, 4, FillBlack);
    assert NoneAgreeFrom(TableFillAttr, 1, FillBlack);
    assert !AgreeAt(TableFillAttr, 6, FillBlack, 6);
    assert !AgreeAt(TableFillAttr, 3, FillBlack, 3);
    assert !AgreeAt(TableFillAttr, 0, FillBlack, 0);
  }

  lemma FillBlackExcludesAttr()
    ensures NoneAgreeFrom(FillBlack, 1, TableFillAttr)
  {
    assert NoneAgreeFrom(FillBlack, 9, TableFillAttr);
    assert NoneAgreeFrom(FillBlack, 5, TableFillAttr);
  }

  lemma StyleExcludesFillBlack()
    ensures NoneAgreeFrom(TableFillStyle, 0, FillBlack)
  {
    assert NoneAgreeFrom(TableFillStyle, 16, FillBlack);
    assert NoneAgreeFrom(TableFillStyle, 12, FillBlack);
    assert NoneAgreeFrom(TableFillStyle, 8, FillBlack);
    assert !AgreeAt(TableFillStyle, 11, FillBlack, 4);
    assert !AgreeAt(TableFillStyle, 7, FillBlack, 0);
    assert NoneAgreeFrom(TableFillStyle, 4, FillBlack);
  }

  lemma FillBlackExcludesStyle()
    ensures NoneAgreeFrom(FillBlack, 1, TableFillStyle)
  {
    assert NoneAgreeFrom(FillBlack, 9, TableFillStyle);
    assert NoneAgreeFrom(FillBlack, 5, TableFillStyle);
  }

  lemma AttrExcludesFillCurrentColor()
    ensures NoneAgreeFrom(TableFillAttr, 0, FillCurrentColor)
  {
    assert NoneAgreeFrom(TableFillAttr, 12, FillCurrentColor);
    assert NoneAgreeFrom(TableFillAttr, 8, FillCurrentColor);
    assert NoneAgreeFrom(TableFillAttr, 4, FillCurrentColor);
    assert NoneAgreeFrom(TableFillAttr, 1, FillCurrentColor);
    assert !AgreeAt(TableFillAttr, 6, FillCurrentColor, 6);
    assert !AgreeAt(TableFillAttr, 3, FillCurrentColor, 3);
    assert !AgreeAt(TableFillAttr, 0, FillCurrentColor, 0);
  }

  lemma FillCurrentColorExcludesAttr()
    ensures NoneAgreeFrom(FillCurrentColor, 1, TableFillAttr)
  {
    assert NoneAgreeFrom(FillCurrentColor, 17, TableFillAttr);
    assert NoneAgreeFrom(FillCurrentColor, 13, TableFillAttr);
    assert NoneAgreeFrom(FillCurrentColor, 9, TableFillAttr);
    assert NoneAgreeFrom(FillCurrentColor, 5, TableFillAttr);
  }

  lemma StyleExcludesFillCurrentColor()
    ensures NoneAgreeFrom(TableFillStyle, 0, FillCurrentColor)
  {
    assert NoneAgreeFrom(TableFillStyle, 16, FillCurrentColor);
    assert NoneAgreeFrom(TableFillStyle, 12, FillCurrentColor);
    assert NoneAgreeFrom(TableFillStyle, 8, FillCurrentColor);
    assert !AgreeAt(TableFillStyle, 11, FillCurrentColor, 4);
    assert !AgreeAt(TableFillStyle, 7, FillCurrentColor, 0);
    assert NoneAgreeFrom(TableFillStyle, 4, FillCurrentColor);
  }

  lemma FillCurrentColorExcludesStyle()
    ensures NoneAgreeFrom(FillCurrentColor, 1, TableFillStyle)
  {
    assert NoneAgreeFrom(FillCurrentColor, 17, TableFillStyle);
    assert NoneAgreeFrom(FillCurrentColor, 13, TableFillStyle);
    assert NoneAgreeFrom(FillCurrentColor, 9, TableFillStyle);
    assert NoneAgreeFrom(FillCurrentColor, 5, TableFillStyle);
  }

  lemma AttrExcludesStyleHex6()
    ensures NoneAgreeFrom(TableFillAttr, 0, StyleHex6)
  {
    assert NoneAgreeFrom(TableFillAttr, 12, StyleHex6);
    assert NoneAgreeFrom(TableFillAttr, 8, StyleHex6);
    assert NoneAgreeFrom(TableFillAttr, 4, StyleHex6);
  }

  lemma StyleHex6ExcludesAttr()
    ensures NoneAgreeFrom(StyleHex6, 1, TableFillAttr)
  {
    assert NoneAgreeFrom(StyleHex6, 17, TableFillAttr);
    assert NoneAgreeFrom(StyleHex6, 13, TableFillAttr);
    assert NoneAgreeFrom(StyleHex6, 9, TableFillAttr);
    assert NoneAgreeFrom(StyleHex6, 8, TableFillAttr);
    assert !AgreeAt(StyleHex6, 11, TableFillAttr, 4);
    assert !AgreeAt(StyleHex6, 7, TableFillAttr, 0);
    assert NoneAgreeFrom(StyleHex6, 5, TableFillAttr);
  }

  lemma StyleExcludesStyleHex6()
    ensures NoneAgreeFrom(TableFillStyle, 0, StyleHex6)
  {
    assert NoneAgreeFrom(TableFillStyle, 16, StyleHex6);
    assert NoneAgreeFrom(TableFillStyle, 12, StyleHex6);
    assert NoneAgreeFrom(TableFillStyle, 8, StyleHex6);
    assert NoneAgreeFrom(TableFillStyle, 4, StyleHex6);
    assert NoneAgreeFrom(TableFillStyle, 1, StyleHex6);
    assert !AgreeAt(TableFillStyle, 13, StyleHex6, 13);
    assert !AgreeAt(TableFillStyle, 10, StyleHex6, 10);
    assert !AgreeAt(TableFillStyle, 7, StyleHex6, 7);
    assert !AgreeAt(TableFillStyle, 4, StyleHex6, 4);
    assert !AgreeAt(TableFillStyle, 0, StyleHex6, 0);
  }

  lemma StyleHex6ExcludesStyle()
    ensures NoneAgreeFrom(StyleHex6, 1, TableFillStyle)
  {
    assert NoneAgreeFrom(StyleHex6, 17, TableFillStyle);
    assert NoneAgreeFrom(StyleHex6, 13, TableFillStyle);
    assert NoneAgreeFrom(StyleHex6, 9, TableFillStyle);
    assert NoneAgreeFrom(StyleHex6, 5, TableFillStyle);
  }

  lemma AttrExcludesStyleHex3()
    ensures NoneAgreeFrom(TableFillAttr, 0, StyleHex3)
  {
    assert NoneAgreeFrom(TableFillAttr, 12, StyleHex3);
    assert NoneAgreeFrom(TableFillAttr, 8, StyleHex3);
    assert NoneAgreeFrom(TableFillAttr, 4, StyleHex3);
  }

  lemma StyleHex3ExcludesAttr()
    ensures NoneAgreeFrom(StyleHex3, 1, TableFillAttr)
  {
    assert NoneAgreeFrom(StyleHex3, 13, TableFillAttr);
    assert NoneAgreeFrom(StyleHex3, 9, TableFillAttr);
    assert NoneAgreeFrom(StyleHex3, 8, TableFillAttr);
    assert !AgreeAt(StyleHex3, 11, TableFillAttr, 4);
    assert !AgreeAt(StyleHex3, 7, TableFillAttr, 0);
    assert NoneAgreeFrom(StyleHex3, 5, TableFillAttr);
  }

  lemma StyleExcludesStyleHex3()
    ensures NoneAgreeFrom(TableFillStyle, 0, StyleHex3)
  {
    assert NoneAgreeFrom(TableFillStyle, 16, StyleHex3);
    assert NoneAgreeFrom(TableFillStyle, 12, StyleHex3);
    assert NoneAgreeFrom(TableFillStyle, 8, StyleHex3);
    assert NoneAgreeFrom(TableFillStyle, 4, StyleHex3);
    assert NoneAgreeFrom(TableFillStyle, 1, StyleHex3);
    assert !AgreeAt(TableFillStyle, 13, StyleHex3, 13);
    assert !AgreeAt(TableFillStyle, 10, StyleHex3, 10);
    assert !AgreeAt(TableFillStyle, 7, StyleHex3, 7);
    assert !AgreeAt(TableFillStyle, 4, StyleHex3, 4);
    assert !AgreeAt(TableFillStyle, 0, StyleHex3, 0);
  }

  lemma StyleHex3ExcludesStyle()
    ensures NoneAgreeFrom(StyleHex3, 1, TableFillStyle)
  {
    assert NoneAgreeFrom(StyleHex3, 13, TableFillStyle);
    assert NoneAgreeFrom(StyleHex3, 9, TableFillStyle);
    assert NoneAgreeFrom(StyleHex3, 5, TableFillStyle);
  }

  lemma SeparatedFillHex6()
    ensures Separated(TableFillAttr, FillHex6) && Separated(TableFillStyle, FillHex6)
  {
    AttrExcludesFillHex6();
    FillHex6ExcludesAttr();
    StyleExcludesFillHex6();
    FillHex6ExcludesStyle();
  }

  lemma SeparatedFillHex3()
    ensures Separated(TableFillAttr, FillHex3) && Separated(TableFillStyle, FillHex3)
  {
    AttrExcludesFillHex3();
    FillHex3ExcludesAttr();
    StyleExcludesFillHex3();
    FillHex3ExcludesStyle();
  }

  lemma SeparatedFillBlack()
    ensures Separated(TableFillAttr, FillBlack) && Separated(TableFillStyle, FillBlack)
  {
    AttrExcludesFillBlack();
    FillBlackExcludesAttr();
    StyleExcludesFillBlack();
    FillBlackExcludesStyle();
  }

  lemma SeparatedFillCurrentColor()
    ensures Separated(TableFillAttr, FillCurrentColor) && Separated(TableFillStyle, FillCurrentColor)
  {
    AttrExcludesFillCurrentColor();
    FillCurrentColorExcludesAttr();
    StyleExcludesFillCurrentColor();
    FillCurrentColorExcludesStyle();
  }

  lemma SeparatedStyleHex6()
    ensures Separated(TableFillAttr, StyleHex6) && Separated(TableFillStyle, StyleHex6)
  {
    AttrExcludesStyleHex6();
    StyleHex6ExcludesAttr();
    StyleExcludesStyleHex6();
    StyleHex6ExcludesStyle();
  }

  lemma SeparatedStyleHex3()
    ensures Separated(TableFillAttr, StyleHex3) && Separated(TableFillStyle, StyleHex3)
  {
    AttrExcludesStyleHex3();
    StyleHex3ExcludesAttr();
    StyleExcludesStyleHex3();
    StyleHex3ExcludesStyle();
  }

}
