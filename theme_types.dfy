/** The theme kinds and the colour palette record (providers/ThemeTypes.ts). */
module ThemeTypes {

  datatype ThemeType = Auto | Dark | Light

  datatype ThemeColours = ThemeColours(
    surface: string,
    onSurface: string,
    primary: string,
    borderColor: string,
    red: string,
    yellow: string)
}
