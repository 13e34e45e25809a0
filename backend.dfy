/**
 * The enumerations of settings.h: the render back end the application
 * runs on, with the two queries hvk_gui.cpp offers over it, the loading
 * icon theme and the background theme.
 */
module Backend {

  datatype RenderBackend = DX12 | DX11

  /** IsDX12: the application renders through Direct3D 12, exactly when it does not render through Direct3D 11. */
  predicate IsDX12(b: RenderBackend): (r: bool)
    ensures r <==> !IsDX11(b)
  {
    b == DX12
  }

  /** IsDX11: the application renders through Direct3D 11, the back end other than Direct3D 12. */
  predicate IsDX11(b: RenderBackend): (r: bool)
    ensures r <==> b != DX12
  {
    b == DX11
  }

  /** LoadingTheme: the loading icon's dark or light variant. */
  datatype LoadingTheme = DARKMODE | LIGHTMODE

  /** BgTheme: the six background images. */
  datatype BgTheme = BLACK | PURPLE | YELLOW | BLUE | GREEN | RED
}
